/** Which domains a feed names, read off the text itself: words, comments and fields by their positions. */
module FeedText {
  import opened FeedParse
  import opened FeedSync
  import opened Wrappers

  // ---- Words ----

  predicate Space(s: string, k: int) {
    0 <= k < |s| && IsSpace(s[k])
  }

  predicate Solid(s: string, k: int) {
    0 <= k < |s| && !IsSpace(s[k])
  }

  predicate Hash(s: string, k: int) {
    0 <= k < |s| && s[k] == '#'
  }

  /** A maximal run without spaces. */
  predicate IsWord(s: string, i: int, j: int) {
    && 0 <= i < j <= |s|
    && (forall k :: i <= k < j ==> Solid(s, k))
    && (i == 0 || Space(s, i - 1))
    && (j == |s| || Space(s, j))
  }

  datatype Span = Span(from: int, to: int)

  predicate IsWordAt(s: string, span: Span, word: string) {
    IsWord(s, span.from, span.to) && word == s[span.from..span.to]
  }

  predicate WordsAt(s: string, spans: seq<Span>, words: seq<string>) {
    |spans| == |words| && forall k :: 0 <= k < |spans| ==> IsWordAt(s, spans[k], words[k])
  }

  predicate InOrder(spans: seq<Span>) {
    forall k, l :: 0 <= k < l < |spans| ==> spans[k].to < spans[l].from
  }

  ghost predicate AllFound(s: string, spans: seq<Span>) {
    forall i, j :: IsWord(s, i, j) ==> Span(i, j) in spans
  }

  /** The spans are those of all words of s, from left to right, and these are the words. */
  ghost predicate ListsWords(s: string, spans: seq<Span>, words: seq<string>) {
    WordsAt(s, spans, words) && InOrder(spans) && AllFound(s, spans)
  }

  predicate AllSpace(s: string, from: int, to: int) {
    forall k :: from <= k < to ==> Space(s, k)
  }

  /** The first word of s is the run from o to o + n. */
  predicate FirstWord(s: string, o: int, n: int) {
    0 <= o && 0 < n && AllSpace(s, 0, o) && IsWord(s, o, o + n)
  }

  lemma {:induction false} TrimLeftDrops(s: string)
    ensures var o := |s| - |TrimLeft(s)|;
      0 <= o && TrimLeft(s) == s[o..] && AllSpace(s, 0, o) && (o == |s| || Solid(s, o))
  {
    if s != "" && IsSpace(s[0]) {
      TrimLeftDrops(s[1..]);
      var o := |s| - |TrimLeft(s)|;
      forall k | 0 <= k < o
        ensures Space(s, k)
      {
        assert k > 0 ==> Space(s[1..], k - 1);
      }
    }
  }

  lemma {:induction false} WordLenStops(s: string)
    requires s != "" && !IsSpace(s[0])
    ensures IsWord(s, 0, WordLen(s))
  {
    if |s| > 1 && !IsSpace(s[1]) {
      WordLenStops(s[1..]);
      forall k | 0 <= k < WordLen(s)
        ensures Solid(s, k)
      {
        assert k > 0 ==> Solid(s[1..], k - 1);
      }
      assert WordLen(s) < |s| ==> Space(s[1..], WordLen(s) - 1);
    }
  }

  /** Reading on from somewhere. */
  lemma Behind(s: string, start: int, k: int)
    requires 0 <= start <= |s| && 0 <= k
    ensures Space(s[start..], k) <==> Space(s, start + k)
    ensures Solid(s[start..], k) <==> Solid(s, start + k)
  {
  }

  /** A word behind a space, as a word of the whole. */
  lemma WordBehind(s: string, start: int, i: int, j: int)
    requires 0 <= start && Space(s, start) && IsWord(s[start..], i, j)
    ensures i > 0 && IsWord(s, start + i, start + j)
  {
    Behind(s, start, 0);
    Behind(s, start, j);
    var rest := s[start..];
    assert i == 0 ==> Solid(rest, 0);
    assert i > 0 ==> Space(rest, i - 1);
    forall k | start + i <= k < start + j
      ensures Solid(s, k)
    {
      assert Solid(s[start..], k - start);
    }
  }

  /** And back. */
  lemma WordFromBehind(s: string, start: int, i: int, j: int)
    requires 0 <= start && Space(s, start) && start <= i && IsWord(s, i, j)
    ensures IsWord(s[start..], i - start, j - start)
  {
    assert i == start ==> Solid(s, start);
    Behind(s, start, i - start - 1);
    Behind(s, start, j - start);
    forall k | i - start <= k < j - start
      ensures Solid(s[start..], k)
    {
      assert Solid(s, start + k);
    }
  }

  /** No other word begins before the first one ends, or right there. */
  lemma FirstWordOnly(s: string, o: int, n: int, i: int, j: int)
    requires FirstWord(s, o, n) && IsWord(s, i, j)
    ensures (i == o && j == o + n) || i > o + n
  {
    assert i < o ==> Space(s, i) && Solid(s, i);
    assert o < i <= o + n ==> Space(s, i - 1) && Solid(s, i - 1);
    assert i == o && j < o + n ==> Space(s, j) && Solid(s, j);
    assert i == o && j > o + n ==> Space(s, o + n) && Solid(s, o + n);
  }

  function Shifted(spans: seq<Span>, offset: int): seq<Span> {
    seq(|spans|, k requires 0 <= k < |spans| => Span(spans[k].from + offset, spans[k].to + offset))
  }

  lemma ShiftedIn(spans: seq<Span>, offset: int, span: Span)
    requires span in spans
    ensures Span(span.from + offset, span.to + offset) in Shifted(spans, offset)
  {
    var k :| 0 <= k < |spans| && spans[k] == span;
    assert Shifted(spans, offset)[k] == Span(span.from + offset, span.to + offset);
  }

  lemma ShiftedWord(s: string, start: int, span: Span, word: string)
    requires 0 <= start && Space(s, start) && IsWordAt(s[start..], span, word)
    ensures span.from > 0 && IsWordAt(s, Span(span.from + start, span.to + start), word)
  {
    WordBehind(s, start, span.from, span.to);
  }

  lemma EveryWordFound(s: string, o: int, n: int, spans: seq<Span>, words: seq<string>, i: int, j: int)
    requires FirstWord(s, o, n) && o + n < |s| && ListsWords(s[o + n..], spans, words) && IsWord(s, i, j)
    ensures Span(i, j) in [Span(o, o + n)] + Shifted(spans, o + n)
  {
    FirstWordOnly(s, o, n, i, j);
    if i > o + n {
      WordFromBehind(s, o + n, i, j);
      ShiftedIn(spans, o + n, Span(i - o - n, j - o - n));
    }
  }

  predicate AllAfter(spans: seq<Span>, limit: int) {
    forall k :: 0 <= k < |spans| ==> spans[k].from > limit
  }

  lemma RestAt(s: string, o: int, n: int, spans: seq<Span>, words: seq<string>)
    requires FirstWord(s, o, n) && o + n < |s| && WordsAt(s[o + n..], spans, words)
    ensures WordsAt(s, [Span(o, o + n)] + Shifted(spans, o + n), [s[o..o + n]] + words)
    ensures AllAfter(Shifted(spans, o + n), o + n)
  {
    forall k | 0 <= k < |spans|
      ensures Shifted(spans, o + n)[k].from > o + n && IsWordAt(s, Shifted(spans, o + n)[k], words[k])
    {
      ShiftedWord(s, o + n, spans[k], words[k]);
    }
  }

  lemma RestInOrder(first: Span, spans: seq<Span>, offset: int)
    requires InOrder(spans) && AllAfter(Shifted(spans, offset), first.to)
    ensures InOrder([first] + Shifted(spans, offset))
  {
    var all := [first] + Shifted(spans, offset);
    forall k, l | 0 <= k < l < |all|
      ensures all[k].to < all[l].from
    {
      assert all[l] == Shifted(spans, offset)[l - 1];
      assert k > 0 ==> spans[k - 1].to < spans[l - 1].from;
    }
  }

  /** The words of a text from the first one and those behind it. */
  lemma FirstThenRest(s: string, o: int, n: int, spans: seq<Span>, words: seq<string>)
    requires FirstWord(s, o, n) && o + n < |s| && ListsWords(s[o + n..], spans, words)
    ensures ListsWords(s, [Span(o, o + n)] + Shifted(spans, o + n), [s[o..o + n]] + words)
  {
    RestAt(s, o, n, spans, words);
    RestInOrder(Span(o, o + n), spans, o + n);
    forall i, j | IsWord(s, i, j)
      ensures Span(i, j) in [Span(o, o + n)] + Shifted(spans, o + n)
    {
      EveryWordFound(s, o, n, spans, words, i, j);
    }
  }

  lemma OnlyOneWord(s: string, o: int)
    requires FirstWord(s, o, |s| - o)
    ensures ListsWords(s, [Span(o, |s|)], [s[o..]])
  {
    forall i, j | IsWord(s, i, j)
      ensures Span(i, j) in [Span(o, |s|)]
    {
      FirstWordOnly(s, o, |s| - o, i, j);
    }
  }

  lemma NoWord(s: string)
    requires AllSpace(s, 0, |s|)
    ensures ListsWords(s, [], [])
  {
    forall i, j
      ensures !IsWord(s, i, j)
    {
      assert 0 <= i < |s| ==> Space(s, i) && !Solid(s, i);
    }
  }

  lemma FirstWordFound(s: string)
    requires TrimLeft(s) != ""
    ensures FirstWord(s, |s| - |TrimLeft(s)|, WordLen(TrimLeft(s)))
  {
    TrimLeftDrops(s);
    var t, o := TrimLeft(s), |s| - |TrimLeft(s)|;
    WordLenStops(t);
    var n := WordLen(t);
    Behind(s, o, n);
    forall k | o <= k < o + n
      ensures Solid(s, k)
    {
      assert Solid(t, k - o);
    }
  }

  /** Fields yields every word of the text, each once and in order. */
  lemma {:induction false} FieldsAreWords(s: string) returns (spans: seq<Span>)
    ensures ListsWords(s, spans, Fields(s))
    decreases |s|
  {
    TrimLeftDrops(s);
    TrimLeftShorter(s);
    var t, o := TrimLeft(s), |s| - |TrimLeft(s)|;
    if t == "" {
      spans := [];
      NoWord(s);
    } else {
      FirstWordFound(s);
      var n := WordLen(t);
      assert t[..n] == s[o..o + n] && t[n..] == s[o + n..];
      if n == |t| {
        OnlyOneWord(s, o);
        spans := [Span(o, |s|)];
        assert Fields(t[n..]) == [];
      } else {
        var behind := FieldsAreWords(t[n..]);
        FirstThenRest(s, o, n, behind, Fields(t[n..]));
        spans := [Span(o, o + n)] + Shifted(behind, o + n);
      }
    }
  }

  // ---- Surrounding spaces do not matter ----

  lemma {:induction false} TrimLeftBefore(s: string, space: char)
    requires IsSpace(space)
    ensures TrimLeft(s + [space]) == if TrimLeft(s) == "" then "" else TrimLeft(s) + [space]
  {
    if s == "" {
      assert (s + [space])[1..] == "";
    } else if IsSpace(s[0]) {
      assert (s + [space])[1..] == s[1..] + [space];
      TrimLeftBefore(s[1..], space);
    }
  }

  lemma {:induction false} WordLenBefore(s: string, space: char)
    requires IsSpace(space)
    ensures WordLen(s + [space]) == WordLen(s)
  {
    if s != "" && !IsSpace(s[0]) {
      assert (s + [space])[1..] == s[1..] + [space];
      WordLenBefore(s[1..], space);
    }
  }

  lemma {:induction false} FieldsBefore(s: string, space: char)
    requires IsSpace(space)
    ensures Fields(s + [space]) == Fields(s)
    decreases |s|
  {
    TrimLeftBefore(s, space);
    TrimLeftShorter(s);
    var t := TrimLeft(s);
    if t != "" {
      var n := WordLen(t);
      WordLenBefore(t, space);
      assert (t + [space])[..n] == t[..n] && (t + [space])[n..] == t[n..] + [space];
      FieldsBefore(t[n..], space);
    }
  }

  lemma {:induction false} FieldsOfTrimRight(s: string)
    ensures Fields(TrimRight(s)) == Fields(s)
    decreases |s|
  {
    if s != "" && IsSpace(s[|s| - 1]) {
      FieldsOfTrimRight(s[..|s| - 1]);
      FieldsBefore(s[..|s| - 1], s[|s| - 1]);
      assert s == s[..|s| - 1] + [s[|s| - 1]];
    }
  }

  lemma {:induction false} TrimLeftTwice(s: string)
    ensures TrimLeft(TrimLeft(s)) == TrimLeft(s)
  {
    if s != "" && IsSpace(s[0]) {
      TrimLeftTwice(s[1..]);
    }
  }

  lemma FieldsOfTrimSpace(s: string)
    ensures Fields(TrimSpace(s)) == Fields(s)
  {
    TrimLeftTwice(s);
    FieldsOfTrimRight(TrimLeft(s));
  }

  /** A line is scanned word by word; blank lines and comment lines need no rule of their own. */
  lemma LineIsFields(norm: Normalizer, raw: string)
    ensures ScanLine(norm, raw) == ScanFields(norm, Fields(raw))
  {
    FieldsOfTrimSpace(raw);
    var line := TrimSpace(raw);
    TrimLeftShorter(line);
    if IsComment(line) {
      assert !IsSpace(line[0]);
      assert Fields(line)[0][0] == '#';
    }
  }

  // ---- What is left of a field ----

  /** field[i..j] is the field without the spaces around it and without a comment, which begins at g. */
  predicate CoreAt(field: string, i: int, j: int, g: int) {
    && 0 <= i <= j <= g <= |field|
    && AllSpace(field, 0, i)
    && (forall k :: i <= k < j ==> !Hash(field, k))
    && AllSpace(field, j, g)
    && (g == |field| || Hash(field, g))
    && (i < j ==> Solid(field, i) && Solid(field, j - 1))
  }

  ghost predicate Core(field: string, u: string) {
    exists i, j, g :: CoreAt(field, i, j, g) && u == field[i..j]
  }

  /** The comment begins at the first hash sign. */
  lemma CommentFirst(field: string, i: int, j: int, g: int, k: int)
    requires CoreAt(field, i, j, g) && k < g
    ensures !Hash(field, k)
  {
    assert 0 <= k < i ==> Space(field, k);
    assert j <= k < g ==> Space(field, k);
  }

  lemma CoreUnique(field: string, i: int, j: int, g: int, i': int, j': int, g': int)
    requires CoreAt(field, i, j, g) && CoreAt(field, i', j', g')
    ensures field[i..j] == field[i'..j']
  {
    CommentsAgree(field, i, j, g, i', j', g');
    assert i < j && i < i' ==> Space(field, i);
    assert i' < j' && i' < i ==> Space(field, i');
    assert i < j && i' < j' && j < j' ==> Space(field, j' - 1);
    assert i < j && i' < j' && j' < j ==> Space(field, j - 1);
    assert i < j && i' == j' && j' <= i ==> Space(field, i);
    assert i' < j' && i == j && j <= i' ==> Space(field, i');
  }

  lemma CommentsAgree(field: string, i: int, j: int, g: int, i': int, j': int, g': int)
    requires CoreAt(field, i, j, g) && CoreAt(field, i', j', g')
    ensures g == g'
  {
    if g < g' {
      CommentFirst(field, i', j', g', g);
    } else if g' < g {
      CommentFirst(field, i, j, g, g');
    }
  }

  lemma {:induction false} TrimRightDrops(s: string)
    ensures var n := |TrimRight(s)|;
      n <= |s| && TrimRight(s) == s[..n] && AllSpace(s, n, |s|) && (n == 0 || Solid(s, n - 1))
    decreases |s|
  {
    if s != "" && IsSpace(s[|s| - 1]) {
      var init := s[..|s| - 1];
      TrimRightDrops(init);
      forall k | |TrimRight(init)| <= k < |s|
        ensures Space(s, k)
      {
        assert k < |init| ==> Space(init, k);
      }
    }
  }

  lemma {:induction false} HashIndexFirst(s: string)
    requires '#' in s
    ensures Hash(s, HashIndex(s)) && forall k :: 0 <= k < HashIndex(s) ==> !Hash(s, k)
  {
    if s[0] != '#' {
      HashIndexFirst(s[1..]);
      forall k | 0 <= k < HashIndex(s)
        ensures !Hash(s, k)
      {
        assert k > 0 ==> !Hash(s[1..], k - 1);
      }
    }
  }

  /** TrimSpace cuts out the part from the first to the last character that is no space. */
  lemma Trimmed(s: string) returns (i: int, j: int)
    ensures 0 <= i <= j <= |s| && TrimSpace(s) == s[i..j] && AllSpace(s, 0, i) && AllSpace(s, j, |s|)
    ensures i < j ==> Solid(s, i) && Solid(s, j - 1)
  {
    TrimLeftDrops(s);
    var t := TrimLeft(s);
    i := |s| - |t|;
    TrimRightDrops(t);
    j := i + |TrimRight(t)|;
    forall k | j <= k < |s|
      ensures Space(s, k)
    {
      assert Space(t, k - i);
    }
  }

  /** The part before a comment, trimmed again. */
  lemma CoreBeforeHash(field: string, i: int, p: int, x: int, y: int)
    requires 0 <= i && 0 < p && i + p < |field| && Solid(field, i) && Hash(field, i + p) && 0 <= x <= y <= p
    requires AllSpace(field, 0, i) && forall k :: i <= k < i + p ==> !Hash(field, k)
    requires AllSpace(field[i..i + p], 0, x) && AllSpace(field[i..i + p], y, p)
    requires x < y ==> Solid(field[i..i + p], x) && Solid(field[i..i + p], y - 1)
    ensures x == 0 && CoreAt(field, i, i + y, i + p)
  {
    var w := field[i..i + p];
    assert w[0] == field[i];
    assert x > 0 ==> Space(w, 0);
    assert y == 0 ==> Space(w, 0);
    assert Solid(w, y - 1) ==> Solid(field, i + y - 1);
    forall k | i + y <= k < i + p
      ensures Space(field, k)
    {
      assert Space(w, k - i);
    }
  }

  lemma CoreWithHash(field: string, i: int, j: int)
    requires 0 <= i < j <= |field| && AllSpace(field, 0, i) && Solid(field, i)
    requires '#' in field[i..j] && field[i] != '#'
    ensures Core(field, StripComment(field[i..j]))
  {
    var v := field[i..j];
    HashIndexFirst(v);
    var p := HashIndex(v);
    forall k | i <= k < i + p
      ensures !Hash(field, k)
    {
      assert !Hash(v, k - i);
    }
    assert v[..p] == field[i..i + p];
    var x, y := Trimmed(v[..p]);
    CoreBeforeHash(field, i, p, x, y);
    assert TrimSpace(v[..p]) == field[i..i + y];
  }

  /** That is what the parser makes of a field. */
  lemma CoreHolds(field: string)
    ensures Core(field, StripComment(TrimSpace(field)))
  {
    var i, j := Trimmed(field);
    var v := field[i..j];
    if IsComment(v) {
      assert CoreAt(field, i, i, i) && field[i..i] == "";
    } else if '#' in v {
      CoreWithHash(field, i, j);
    } else {
      forall k | i <= k < j
        ensures !Hash(field, k)
      {
        assert v[k - i] == field[k];
      }
      assert CoreAt(field, i, j, |field|);
    }
  }

  lemma CoreExactly(field: string, u: string)
    ensures Core(field, u) <==> u == StripComment(TrimSpace(field))
  {
    CoreHolds(field);
    var i, j, g :| CoreAt(field, i, j, g) && StripComment(TrimSpace(field)) == field[i..j];
    forall i', j', g' | CoreAt(field, i', j', g') && u == field[i'..j']
      ensures u == field[i..j]
    {
      CoreUnique(field, i, j, g, i', j', g');
    }
  }

  /** The field gives a domain: what is left of it is not empty and normalises to it. */
  ghost predicate Gives(norm: Normalizer, field: string, d: string) {
    exists u :: Core(field, u) && u != "" && norm(u) == Some(d)
  }

  lemma ScanFieldExactly(norm: Normalizer, field: string, d: string)
    ensures ScanField(norm, field) == Accepted(d) <==> Gives(norm, field, d)
  {
    CoreHolds(field);
    forall u
      ensures Core(field, u) <==> u == StripComment(TrimSpace(field))
    {
      CoreExactly(field, u);
    }
  }

  // ---- Text feeds ----

  /** No word up to position i begins with a hash sign. */
  ghost predicate BeforeComment(line: string, i: int) {
    forall k, l :: IsWord(line, k, l) && k <= i ==> !Hash(line, k)
  }

  /** A word of the line, before any comment, gives the domain. */
  ghost predicate Names(norm: Normalizer, line: string, d: string) {
    exists i, j :: IsWord(line, i, j) && BeforeComment(line, i) && Gives(norm, line[i..j], d)
  }

  predicate NoComment(fields: seq<string>) {
    forall l :: 0 <= l < |fields| ==> !IsComment(fields[l])
  }

  ghost predicate GivenAt(norm: Normalizer, fields: seq<string>, k: nat, d: string)
    requires k < |fields|
  {
    NoComment(fields[..k + 1]) && Gives(norm, fields[k], d)
  }

  lemma {:induction false} FieldsGive(norm: Normalizer, fields: seq<string>, d: string)
    ensures d in ScanFields(norm, fields).accepted <==> exists k :: 0 <= k < |fields| && GivenAt(norm, fields, k, d)
  {
    if |fields| > 0 && !IsComment(fields[0]) {
      var rest := fields[1..];
      FieldsGive(norm, rest, d);
      ScanFieldExactly(norm, fields[0], d);
      if Gives(norm, fields[0], d) {
        assert GivenAt(norm, fields, 0, d);
      }
      forall k | 0 <= k < |rest| && GivenAt(norm, rest, k, d)
        ensures GivenAt(norm, fields, k + 1, d)
      {
        assert fields[..k + 2] == [fields[0]] + rest[..k + 1];
      }
      forall k | 0 < k < |fields| && GivenAt(norm, fields, k, d)
        ensures GivenAt(norm, rest, k - 1, d)
      {
        assert forall l :: 0 <= l < k ==> rest[..k][l] == fields[..k + 1][l + 1];
      }
    } else if |fields| > 0 {
      forall k | 0 <= k < |fields|
        ensures !GivenAt(norm, fields, k, d)
      {
        assert fields[..k + 1][0] == fields[0];
      }
    }
  }

  lemma CommentAt(line: string, span: Span, word: string)
    requires IsWordAt(line, span, word)
    ensures IsComment(word) <==> Hash(line, span.from)
  {
  }

  /** A word begins no comment, and no word before it does, in terms of spans and in terms of fields. */
  lemma CommentBySpan(line: string, spans: seq<Span>, k: nat)
    requires ListsWords(line, spans, Fields(line)) && k < |spans|
    ensures BeforeComment(line, spans[k].from) <==> NoComment(Fields(line)[..k + 1])
  {
    var fields := Fields(line);
    forall l | 0 <= l < |fields|
      ensures IsWord(line, spans[l].from, spans[l].to) && (IsComment(fields[l]) <==> Hash(line, spans[l].from))
      ensures l <= k <==> spans[l].from <= spans[k].from
    {
      CommentAt(line, spans[l], fields[l]);
      assert IsWordAt(line, spans[k], fields[k]);
      assert l < k ==> spans[l].to < spans[k].from;
      assert k < l ==> spans[k].to < spans[l].from;
    }
    assert forall l :: 0 <= l < k + 1 ==> fields[..k + 1][l] == fields[l];
    if NoComment(fields[..k + 1]) {
      forall i, j | IsWord(line, i, j) && i <= spans[k].from
        ensures !Hash(line, i)
      {
        var l :| 0 <= l < |spans| && spans[l] == Span(i, j);
        assert !IsComment(fields[..k + 1][l]);
      }
    }
  }

  /** The domains accepted from a line are those its words give before any comment. */
  lemma LineAcceptsExactly(norm: Normalizer, line: string, d: string)
    ensures d in ScanLine(norm, line).accepted <==> Names(norm, line, d)
  {
    var spans := FieldsAreWords(line);
    var fields := Fields(line);
    LineIsFields(norm, line);
    FieldsGive(norm, fields, d);
    forall k | 0 <= k < |fields|
      ensures GivenAt(norm, fields, k, d) <==>
              BeforeComment(line, spans[k].from) && Gives(norm, line[spans[k].from..spans[k].to], d)
      ensures IsWord(line, spans[k].from, spans[k].to)
    {
      assert IsWordAt(line, spans[k], fields[k]);
      CommentBySpan(line, spans, k);
    }
    if Names(norm, line, d) {
      var i, j :| IsWord(line, i, j) && BeforeComment(line, i) && Gives(norm, line[i..j], d);
      var k :| 0 <= k < |spans| && spans[k] == Span(i, j);
      assert GivenAt(norm, fields, k, d);
    }
  }

  lemma {:induction false} LinesAcceptExactly(norm: Normalizer, lines: seq<string>, d: string)
    ensures d in LinesAccepted(norm, lines) <==> exists n :: 0 <= n < |lines| && Names(norm, lines[n], d)
  {
    if |lines| > 0 {
      LineAcceptsExactly(norm, lines[0], d);
      LinesAcceptExactly(norm, lines[1..], d);
      assert forall n :: 0 < n < |lines| ==> lines[n] == lines[1..][n - 1];
    }
  }

  /** The parsed domains of a text feed are exactly those that some line names. */
  lemma ParsedTextExactly(norm: Normalizer, lines: seq<string>, scanFails: bool, d: string)
    ensures d in Parsed(norm, Text(lines, scanFails)) <==>
            exists n :: 0 <= n < |lines| && Names(norm, lines[n], d)
  {
    LinesAcceptExactly(norm, lines, d);
    ParsedIsAccepted(norm, Text(lines, scanFails), d);
  }

  lemma ParsedIsAccepted(norm: Normalizer, source: Source, d: string)
    ensures d in Parsed(norm, source) <==> d in FeedSync.Accepted(norm, source)
  {
    DedupElements(FeedSync.Accepted(norm, source));
    assert d in Parsed(norm, source) <==> d in Elements(Parsed(norm, source));
    assert d in FeedSync.Accepted(norm, source) <==> d in Elements(FeedSync.Accepted(norm, source));
  }

  // ---- CSV feeds ----

  /** The first field of the row to give any domain gives this one. */
  ghost predicate FirstGives(norm: Normalizer, fields: seq<string>, d: string) {
    exists f :: 0 <= f < |fields| && FirstGivesAt(norm, fields, f, d)
  }

  ghost predicate FirstGivesAt(norm: Normalizer, fields: seq<string>, f: nat, d: string)
    requires f < |fields|
  {
    Gives(norm, fields[f], d) && forall e, x :: 0 <= e < f ==> !Gives(norm, fields[e], x)
  }

  lemma FieldDecides(norm: Normalizer, field: string)
    ensures var u := StripComment(TrimSpace(field));
      && (forall d :: Gives(norm, field, d) <==> u != "" && norm(u) == Some(d))
  {
    forall d
      ensures Gives(norm, field, d) <==> ScanField(norm, field) == Accepted(d)
    {
      ScanFieldExactly(norm, field, d);
    }
  }

  lemma {:induction false} FirstDomainExactly(norm: Normalizer, fields: seq<string>, d: string)
    ensures FirstDomain(norm, fields) == Some(d) <==> FirstGives(norm, fields, d)
  {
    if |fields| > 0 {
      var u, rest := StripComment(TrimSpace(fields[0])), fields[1..];
      FieldDecides(norm, fields[0]);
      if u != "" && norm(u).Some? {
        var first := norm(u).value;
        assert Gives(norm, fields[0], first);
        assert d == first ==> FirstGivesAt(norm, fields, 0, d);
      } else {
        FirstDomainExactly(norm, rest, d);
        FirstGivesLater(norm, fields, d);
      }
    }
  }

  /** A first field that gives nothing is passed over. */
  lemma FirstGivesLater(norm: Normalizer, fields: seq<string>, d: string)
    requires |fields| > 0 && forall x :: !Gives(norm, fields[0], x)
    ensures FirstGives(norm, fields, d) <==> FirstGives(norm, fields[1..], d)
  {
    var rest := fields[1..];
    forall f | 0 <= f < |rest|
      ensures FirstGivesAt(norm, rest, f, d) <==> FirstGivesAt(norm, fields, f + 1, d)
    {
      assert forall e :: 0 <= e < f ==> rest[e] == fields[e + 1];
      assert forall e :: 0 < e < f + 1 ==> fields[e] == rest[e - 1];
    }
    if FirstGives(norm, rest, d) {
      var f :| 0 <= f < |rest| && FirstGivesAt(norm, rest, f, d);
      assert FirstGivesAt(norm, fields, f + 1, d);
    }
    if FirstGives(norm, fields, d) {
      var f :| 0 <= f < |fields| && FirstGivesAt(norm, fields, f, d);
      assert f > 0;
      assert FirstGivesAt(norm, rest, f - 1, d);
    }
  }

  lemma {:induction false} RowsAcceptExactly(norm: Normalizer, rows: seq<Row>, d: string)
    ensures d in RowsAccepted(norm, rows) <==>
            exists n :: 0 <= n < |rows| && rows[n].Row? && FirstGives(norm, rows[n].fields, d)
  {
    if |rows| > 0 {
      if rows[0].Row? {
        FirstDomainExactly(norm, rows[0].fields, d);
      }
      RowsAcceptExactly(norm, rows[1..], d);
      assert forall n :: 0 < n < |rows| ==> rows[n] == rows[1..][n - 1];
    }
  }

  /** The parsed domains of a CSV feed are exactly those that some row gives first. */
  lemma ParsedCsvExactly(norm: Normalizer, rows: seq<Row>, d: string)
    ensures d in Parsed(norm, Csv(rows)) <==>
            exists n :: 0 <= n < |rows| && rows[n].Row? && FirstGives(norm, rows[n].fields, d)
  {
    RowsAcceptExactly(norm, rows, d);
    ParsedIsAccepted(norm, Csv(rows), d);
  }

  // ---- Statistics of lines ----

  /** The words of a line before its comment. */
  function Live(fields: seq<string>): seq<string> {
    if |fields| == 0 || IsComment(fields[0]) then [] else [fields[0]] + Live(fields[1..])
  }

  predicate IsPlainWord(word: string) {
    word != "" && forall k :: 0 <= k < |word| ==> Solid(word, k)
  }

  lemma WordIsPlain(line: string, span: Span, word: string)
    requires IsWordAt(line, span, word)
    ensures IsPlainWord(word)
  {
    forall k | 0 <= k < |word|
      ensures Solid(word, k)
    {
      assert Solid(line, span.from + k);
    }
  }

  /** A word that begins no comment is never blank. */
  lemma WordIsNotBlank(norm: Normalizer, word: string)
    requires IsPlainWord(word) && !IsComment(word)
    ensures !ScanField(norm, word).Blank?
  {
    CoreHolds(word);
    var i, j, g :| CoreAt(word, i, j, g) && StripComment(TrimSpace(word)) == word[i..j];
    assert Solid(word, 0) && !Hash(word, 0);
    assert i > 0 ==> Space(word, 0);
    assert i == j == 0 && g > 0 ==> Space(word, 0);
  }

  lemma {:induction false} LiveCounts(norm: Normalizer, fields: seq<string>)
    requires forall k :: 0 <= k < |fields| ==> IsPlainWord(fields[k])
    ensures var scan := ScanFields(norm, fields);
      |scan.accepted| + scan.invalid == |Live(fields)| && (scan.parsedAny <==> Live(fields) != [])
  {
    if |fields| > 0 && !IsComment(fields[0]) {
      WordIsNotBlank(norm, fields[0]);
      LiveCounts(norm, fields[1..]);
    }
  }

  /** What a line adds to the statistics: one to Skipped when nothing stands before its comment; else every word not
      accepted to Invalid, but only one in all when none is. */
  lemma LineCountsExactly(norm: Normalizer, line: string)
    ensures var words, accepted := |Live(Fields(line))|, |ScanLine(norm, line).accepted|;
      && accepted <= words
      && LineSkipped(norm, line) == (if words == 0 then 1 else 0)
      && LineInvalid(norm, line) == (if accepted > 0 then words - accepted else if words > 0 then 1 else 0)
  {
    var spans := FieldsAreWords(line);
    forall k | 0 <= k < |Fields(line)|
      ensures IsPlainWord(Fields(line)[k])
    {
      WordIsPlain(line, spans[k], Fields(line)[k]);
    }
    LineIsFields(norm, line);
    LiveCounts(norm, Fields(line));
  }
}
