/** What a threat feed says: the candidates of its lines or rows, their deduplication, and the statistics. */
module FeedParse {
  import opened Wrappers

  /** normalizeCandidate: the domain of a field, or nothing when it is rejected. */
  type Normalizer = string -> Option<string>

  datatype Stats = Stats(valid: nat, invalid: nat, duplicates: nat, skipped: nat)

  // ---- Text helpers ----

  predicate IsSpace(c: char) {
    var n := c as int;
    9 <= n <= 13 || n == 0x20 || n == 0x85 || n == 0xA0 || n == 0x1680 || 0x2000 <= n <= 0x200A ||
    n == 0x2028 || n == 0x2029 || n == 0x202F || n == 0x205F || n == 0x3000
  }

  function TrimLeft(s: string): string {
    if s != "" && IsSpace(s[0]) then TrimLeft(s[1..]) else s
  }

  function TrimRight(s: string): string {
    if s != "" && IsSpace(s[|s| - 1]) then TrimRight(s[..|s| - 1]) else s
  }

  function TrimSpace(s: string): string {
    TrimRight(TrimLeft(s))
  }

  function WordLen(s: string): (n: nat)
    ensures n <= |s|
  {
    if s == "" || IsSpace(s[0]) then 0 else 1 + WordLen(s[1..])
  }

  lemma {:induction false} TrimLeftShorter(s: string)
    ensures |TrimLeft(s)| <= |s|
    ensures TrimLeft(s) != "" ==> WordLen(TrimLeft(s)) > 0
  {
    if s != "" && IsSpace(s[0]) {
      TrimLeftShorter(s[1..]);
    }
  }

  /** strings.Fields. */
  function Fields(s: string): seq<string>
    decreases |s|
  {
    TrimLeftShorter(s);
    var t := TrimLeft(s);
    if t == "" then [] else [t[..WordLen(t)]] + Fields(t[WordLen(t)..])
  }

  predicate IsComment(s: string) {
    s != "" && s[0] == '#'
  }

  function HashIndex(s: string): nat
    requires '#' in s
    ensures HashIndex(s) < |s|
  {
    if s[0] == '#' then 0 else 1 + HashIndex(s[1..])
  }

  function StripComment(value: string): string {
    if IsComment(value) then ""
    else if '#' in value then TrimSpace(value[..HashIndex(value)])
    else value
  }

  // ---- Lines ----

  datatype FieldScan = Blank | Rejected | Accepted(domain: string)

  function ScanField(norm: Normalizer, raw: string): FieldScan {
    var field := StripComment(TrimSpace(raw));
    if field == "" then Blank else if norm(field).None? then Rejected else Accepted(norm(field).value)
  }

  datatype LineScan = LineScan(accepted: seq<string>, invalid: nat, parsedAny: bool)

  function Prepend(field: FieldScan, rest: LineScan): LineScan {
    match field
    case Blank => rest
    case Rejected => LineScan(rest.accepted, rest.invalid + 1, true)
    case Accepted(domain) => LineScan([domain] + rest.accepted, rest.invalid, true)
  }

  /** The fields of one line up to the first comment field. */
  function ScanFields(norm: Normalizer, fields: seq<string>): LineScan {
    if |fields| == 0 || IsComment(fields[0]) then LineScan([], 0, false)
    else Prepend(ScanField(norm, fields[0]), ScanFields(norm, fields[1..]))
  }

  function ScanLine(norm: Normalizer, raw: string): LineScan {
    var line := TrimSpace(raw);
    if line == "" || IsComment(line) then LineScan([], 0, false) else ScanFields(norm, Fields(line))
  }

  function LineSkipped(norm: Normalizer, raw: string): nat {
    if ScanLine(norm, raw).parsedAny then 0 else 1
  }

  /** Every rejected field counts on a line that also has a domain; a line of rejects counts once. */
  function LineInvalid(norm: Normalizer, raw: string): nat {
    var scan := ScanLine(norm, raw);
    if scan.accepted != [] then scan.invalid else if scan.invalid > 0 then 1 else 0
  }

  function LinesAccepted(norm: Normalizer, lines: seq<string>): seq<string> {
    if |lines| == 0 then [] else ScanLine(norm, lines[0]).accepted + LinesAccepted(norm, lines[1..])
  }

  function LinesSkipped(norm: Normalizer, lines: seq<string>): nat {
    if |lines| == 0 then 0 else LineSkipped(norm, lines[0]) + LinesSkipped(norm, lines[1..])
  }

  function LinesInvalid(norm: Normalizer, lines: seq<string>): nat {
    if |lines| == 0 then 0 else LineInvalid(norm, lines[0]) + LinesInvalid(norm, lines[1..])
  }

  // ---- CSV rows ----

  /** A row of the CSV reader, or a row error that the parser counts and passes over. */
  datatype Row = Row(fields: seq<string>) | BadRow

  function FirstDomain(norm: Normalizer, fields: seq<string>): Option<string> {
    if |fields| == 0 then None
    else
      var field := StripComment(TrimSpace(fields[0]));
      if field != "" && norm(field).Some? then norm(field) else FirstDomain(norm, fields[1..])
  }

  function RowAccepted(norm: Normalizer, row: Row): seq<string> {
    if row.BadRow? || FirstDomain(norm, row.fields).None? then [] else [FirstDomain(norm, row.fields).value]
  }

  function RowsAccepted(norm: Normalizer, rows: seq<Row>): seq<string> {
    if |rows| == 0 then [] else RowAccepted(norm, rows[0]) + RowsAccepted(norm, rows[1..])
  }

  function RowInvalid(norm: Normalizer, row: Row): nat {
    if row.BadRow? || (row.fields != [] && FirstDomain(norm, row.fields).None?) then 1 else 0
  }

  function RowSkipped(row: Row): nat {
    if row.Row? && row.fields == [] then 1 else 0
  }

  function RowsInvalid(norm: Normalizer, rows: seq<Row>): nat {
    if |rows| == 0 then 0 else RowInvalid(norm, rows[0]) + RowsInvalid(norm, rows[1..])
  }

  function RowsSkipped(rows: seq<Row>): nat {
    if |rows| == 0 then 0 else RowSkipped(rows[0]) + RowsSkipped(rows[1..])
  }

  /** Every CSV row is counted exactly once. */
  lemma {:induction false} EveryRowCounted(norm: Normalizer, rows: seq<Row>)
    ensures |RowsAccepted(norm, rows)| + RowsInvalid(norm, rows) + RowsSkipped(rows) == |rows|
  {
    if |rows| > 0 {
      EveryRowCounted(norm, rows[1..]);
    }
  }

  // ---- Deduplication ----

  predicate NoDuplicates(s: seq<string>) {
    forall i, j :: 0 <= i < j < |s| ==> s[i] != s[j]
  }

  function Elements(s: seq<string>): set<string> {
    set x | x in s
  }

  lemma ElementsConcat(a: seq<string>, b: seq<string>)
    ensures Elements(a + b) == Elements(a) + Elements(b)
  {
  }

  /** Each string once, at its first occurrence. */
  function Dedup(s: seq<string>): seq<string> {
    if |s| == 0 then []
    else
      var init, last := s[..|s| - 1], s[|s| - 1];
      if last in init then Dedup(init) else Dedup(init) + [last]
  }

  function FirstIndex(s: seq<string>, x: string): (i: nat)
    requires x in s
    ensures i < |s| && s[i] == x && x !in s[..i]
  {
    if s[0] == x then 0 else 1 + FirstIndex(s[1..], x)
  }

  lemma {:induction false} DedupElements(s: seq<string>)
    ensures NoDuplicates(Dedup(s))
    ensures Elements(Dedup(s)) == Elements(s)
    ensures |Dedup(s)| <= |s|
  {
    if |s| > 0 {
      var init, last := s[..|s| - 1], s[|s| - 1];
      DedupElements(init);
      assert s == init + [last];
      assert forall x :: x in Dedup(init) <==> x in Elements(Dedup(init));
      assert forall x :: x in init <==> x in Elements(init);
    }
  }

  lemma {:induction false} DedupKeepsOrder(s: seq<string>, i: nat, j: nat)
    requires i < j < |Dedup(s)|
    ensures Dedup(s)[i] in s && Dedup(s)[j] in s
    ensures FirstIndex(s, Dedup(s)[i]) < FirstIndex(s, Dedup(s)[j])
    decreases |s|
  {
    var init, last := s[..|s| - 1], s[|s| - 1];
    assert s == init + [last];
    InDedup(init);
    if last in init || j < |Dedup(init)| {
      DedupKeepsOrder(init, i, j);
      FirstIndexInPrefix(init, last, Dedup(init)[i]);
      FirstIndexInPrefix(init, last, Dedup(init)[j]);
    } else {
      FirstIndexInPrefix(init, last, Dedup(init)[i]);
      assert forall q :: 0 <= q < |init| ==> s[q] == init[q];
    }
  }

  lemma InDedup(s: seq<string>)
    ensures forall i :: 0 <= i < |Dedup(s)| ==> Dedup(s)[i] in s
  {
    DedupElements(s);
    assert forall x :: x in Dedup(s) <==> x in Elements(Dedup(s));
    assert forall x :: x in s <==> x in Elements(s);
  }

  lemma {:induction false} FirstIndexInPrefix(init: seq<string>, last: string, x: string)
    requires x in init
    ensures FirstIndex(init + [last], x) == FirstIndex(init, x)
    decreases |init|
  {
    var s := init + [last];
    assert s[0] == init[0] && s[1..] == init[1..] + [last];
    if init[0] != x {
      FirstIndexInPrefix(init[1..], last, x);
    }
  }

  lemma DistinctCount(s: seq<string>)
    requires NoDuplicates(s)
    ensures |Elements(s)| == |s|
    decreases |s|
  {
    if |s| > 0 {
      var init, last := s[..|s| - 1], s[|s| - 1];
      DistinctCount(init);
      assert s == init + [last];
      assert last !in init;
      assert Elements(s) == Elements(init) + {last};
    }
  }

  // ---- What addDomain hands on, candidate by candidate ----

  function Offer(emitted: seq<string>, domain: string): seq<string> {
    if domain in emitted then emitted else emitted + [domain]
  }

  function OfferAll(emitted: seq<string>, candidates: seq<string>): seq<string>
    decreases |candidates|
  {
    if |candidates| == 0 then emitted else OfferAll(Offer(emitted, candidates[0]), candidates[1..])
  }

  lemma {:induction false} OfferAllConcat(emitted: seq<string>, a: seq<string>, b: seq<string>)
    ensures OfferAll(emitted, a + b) == OfferAll(OfferAll(emitted, a), b)
    decreases |a|
  {
    if |a| == 0 {
      assert a + b == b;
    } else {
      assert (a + b)[1..] == a[1..] + b;
      OfferAllConcat(Offer(emitted, a[0]), a[1..], b);
    }
  }

  lemma {:induction false} OfferAllGrows(emitted: seq<string>, candidates: seq<string>)
    ensures emitted <= OfferAll(emitted, candidates)
    decreases |candidates|
  {
    if |candidates| > 0 {
      OfferAllGrows(Offer(emitted, candidates[0]), candidates[1..]);
    }
  }

  /** Offering a whole feed from nothing deduplicates it. */
  lemma {:induction false} OfferAllIsDedup(s: seq<string>)
    ensures OfferAll([], s) == Dedup(s)
    decreases |s|
  {
    if |s| > 0 {
      var init, last := s[..|s| - 1], s[|s| - 1];
      OfferAllIsDedup(init);
      assert s == init + [last];
      OfferAllConcat([], init, [last]);
      DedupElements(init);
      assert last in Dedup(init) <==> last in Elements(Dedup(init));
      assert last in init <==> last in Elements(init);
    }
  }

  /** t lists the elements of s, each once, in the order of their first occurrences. */
  ghost predicate ListsInOrder(s: seq<string>, t: seq<string>) {
    && (forall x :: x in t <==> x in s)
    && forall i, j :: 0 <= i < j < |t| ==> FirstIndex(s, t[i]) < FirstIndex(s, t[j])
  }

  lemma DedupLists(s: seq<string>)
    ensures ListsInOrder(s, Dedup(s))
  {
    DedupElements(s);
    assert forall x :: x in Dedup(s) <==> x in Elements(Dedup(s));
    assert forall x :: x in s <==> x in Elements(s);
    forall i, j | 0 <= i < j < |Dedup(s)|
      ensures FirstIndex(s, Dedup(s)[i]) < FirstIndex(s, Dedup(s)[j])
    {
      DedupKeepsOrder(s, i, j);
    }
  }

  /** The elements in first-occurrence order: Dedup(s) is the only such listing. */
  lemma DedupUnique(s: seq<string>, t: seq<string>)
    requires ListsInOrder(s, t)
    ensures t == Dedup(s)
  {
    DedupLists(s);
    var u := Dedup(s);
    ListingLength(s, t);
    ListingLength(s, u);
    SameUpTo(s, t, u, |t|);
    assert t[..|t|] == t && u[..|u|] == u;
  }

  lemma ListingLength(s: seq<string>, t: seq<string>)
    requires ListsInOrder(s, t)
    ensures |t| == |Elements(s)|
  {
    assert NoDuplicates(t);
    DistinctCount(t);
    assert Elements(t) == Elements(s);
  }

  lemma {:induction false} SameUpTo(s: seq<string>, t: seq<string>, u: seq<string>, n: nat)
    requires ListsInOrder(s, t) && ListsInOrder(s, u) && n <= |t| && n <= |u|
    ensures t[..n] == u[..n]
    decreases n
  {
    if n > 0 {
      var k := n - 1;
      SameUpTo(s, t, u, k);
      NotLater(s, t, u, k);
      NotLater(s, u, t, k);
      SameFirstIndex(s, t[k], u[k]);
      assert t[..n] == t[..k] + [t[k]] && u[..n] == u[..k] + [u[k]];
    }
  }

  lemma SameFirstIndex(s: seq<string>, x: string, y: string)
    requires x in s && y in s && FirstIndex(s, x) == FirstIndex(s, y)
    ensures x == y
  {
  }

  /** Past a common prefix, what u lists next has not been listed in t. */
  lemma NotYetListed(s: seq<string>, t: seq<string>, u: seq<string>, k: nat, i: nat)
    requires ListsInOrder(s, t) && ListsInOrder(s, u) && i < k < |t| && k < |u| && t[..k] == u[..k]
    ensures t[i] != u[k]
  {
    assert t[..k][i] == u[..k][i];
    assert FirstIndex(s, u[i]) < FirstIndex(s, u[k]);
  }

  /** After equal prefixes, t's next element is not later than u's: u's next element is still to come in t. */
  lemma NotLater(s: seq<string>, t: seq<string>, u: seq<string>, k: nat)
    requires ListsInOrder(s, t) && ListsInOrder(s, u) && k < |t| && k < |u| && t[..k] == u[..k]
    ensures t[k] in s && u[k] in s && FirstIndex(s, t[k]) <= FirstIndex(s, u[k])
  {
    assert t[k] in t && u[k] in u && u[k] in t;
    var b :| 0 <= b < |t| && t[b] == u[k];
    if b < k {
      NotYetListed(s, t, u, k, b);
    } else if k < b {
      assert FirstIndex(s, t[k]) < FirstIndex(s, t[b]);
    }
  }
}
