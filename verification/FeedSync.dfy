/** One feed sync: streaming parse, batching, staging, rename and revision bump, against a Redis whose every
    operation may fail without effect. */
module FeedSync {
  import opened FeedParse
  import opened Wrappers

  const BATCH_SIZE: nat := 1000
  const DEFAULT_MIN_WRITES: int := 1

  datatype RenameResult = Renamed | NoSuchKey | RenameFailed

  /** Whether a set-valued key, and its members, are what they were. */
  predicate SameKey(before: map<string, set<string>>, after: map<string, set<string>>, key: string) {
    (key in before <==> key in after) && (key in before ==> before[key] == after[key])
  }

  ghost predicate OthersSame(before: map<string, set<string>>, after: map<string, set<string>>, key: string) {
    forall k :: k != key ==> SameKey(before, after, k)
  }

  lemma OthersSameTrans(a: map<string, set<string>>, b: map<string, set<string>>, c: map<string, set<string>>,
                        key: string)
    requires OthersSame(a, b, key) && OthersSame(b, c, key)
    ensures OthersSame(a, c, key)
  {
    forall k | k != key
      ensures SameKey(a, c, k)
    {
      assert SameKey(a, b, k) && SameKey(b, c, k);
    }
  }

  /** Filling the staging key and then publishing it touches no key but the live one (staging aside). */
  lemma StagedFrame(a: map<string, set<string>>, b: map<string, set<string>>, c: map<string, set<string>>,
                    key: string, staging: string)
    requires staging !in a && OthersSame(a, b, staging) && OthersSame(b - {staging}, c - {staging}, key)
    ensures OthersSame(a, c - {staging}, key)
  {
    forall k | k != key
      ensures SameKey(a, c - {staging}, k)
    {
      assert SameKey(b - {staging}, c - {staging}, k);
      assert k != staging ==> SameKey(a, b, k);
    }
  }

  class Redis {
    /** The set-valued keys; a key exists exactly when its set is not empty. */
    var sets: map<string, set<string>>
    /** The integer keys. */
    var counters: map<string, int>

    ghost predicate Valid()
      reads this
    {
      forall key :: key in sets ==> sets[key] != {}
    }

    function Members(key: string): set<string>
      reads this
    {
      if key in sets then sets[key] else {}
    }

    /** SADD: the number of members that were new, or nothing when the command failed. */
    method SetAdd(key: string, members: seq<string>) returns (added: Option<nat>)
      requires Valid()
      modifies this`sets
      ensures Valid()
      ensures added.None? ==> sets == old(sets)
      ensures added.Some? ==> Members(key) == old(Members(key)) + Elements(members)
      ensures added.Some? ==> added.value == |Members(key)| - |old(Members(key))|
      ensures OthersSame(old(sets), sets, key)
    {
      var ok: bool := *;
      if !ok {
        return None;
      }
      if |members| == 0 {
        assert Elements(members) == {};
        return Some(0);
      }
      var before := Members(key);
      var after := before + Elements(members);
      assert members[0] in after;
      GrowthIsNatural(before, after);
      added := Some(|after| - |before|);
      sets := sets[key := after];
    }

    method Delete(key: string) returns (ok: bool)
      requires Valid()
      modifies this`sets
      ensures Valid()
      ensures sets == if ok then old(sets) - {key} else old(sets)
    {
      ok := *;
      if ok {
        sets := sets - {key};
      }
    }

    /** RENAME fails when the source key does not exist. */
    method Rename(from: string, to: string) returns (result: RenameResult)
      requires Valid()
      modifies this`sets
      ensures Valid()
      ensures result.NoSuchKey? ==> from !in old(sets)
      ensures !result.Renamed? ==> sets == old(sets)
      ensures result.Renamed? ==> from in old(sets) && sets == (old(sets) - {from})[to := old(sets)[from]]
    {
      var ok: bool := *;
      if !ok {
        return RenameFailed;
      }
      if from !in sets {
        return NoSuchKey;
      }
      sets := (sets - {from})[to := sets[from]];
      return Renamed;
    }

    method Increment(key: string) returns (value: Option<int>)
      modifies this`counters
      ensures value.None? ==> counters == old(counters)
      ensures value.Some? ==> value.value == (if key in old(counters) then old(counters)[key] else 0) + 1
      ensures value.Some? ==> counters == old(counters)[key := value.value]
    {
      var ok: bool := *;
      if !ok {
        return None;
      }
      var next := (if key in counters then counters[key] else 0) + 1;
      counters := counters[key := next];
      return Some(next);
    }
  }

  lemma GrowthIsNatural(before: set<string>, after: set<string>)
    requires before <= after
    ensures |before| <= |after|
  {
    assert after == before + (after - before);
  }

  /** What the parser reads: lines (with a possible scanner error at the end) or CSV rows. */
  datatype Source = Text(lines: seq<string>, scanFails: bool) | Csv(rows: seq<Row>)

  function Accepted(norm: Normalizer, source: Source): seq<string> {
    if source.Text? then LinesAccepted(norm, source.lines) else RowsAccepted(norm, source.rows)
  }

  /** The parser's state together with the sync's domain handler: a batch that is flushed to one Redis key. */
  class Ingest {
    const redis: Redis
    /** The key written to; None is a dry run, whose handler does nothing. */
    const target: Option<string>
    var stats: Stats
    var seen: set<string>
    var batch: seq<string>
    var written: nat
    /** Every domain handed to the handler, the part of it already flushed, and the number of candidates so far. */
    ghost var emitted: seq<string>
    ghost var flushed: seq<string>
    ghost var offered: nat
    /** What Redis held at the start. */
    ghost const before: map<string, set<string>>
    ghost const base: set<string>

    ghost predicate Valid()
      reads this, redis
    {
      && redis.Valid()
      && seen == Elements(emitted)
      && emitted == flushed + batch
      && Holds()
    }

    /** The counts, and what Redis holds: everything flushed is in the target, and nothing else has changed. */
    ghost predicate Holds()
      reads this, redis
    {
      && stats.valid == |emitted| && stats.valid + stats.duplicates == offered
      && base == (if target.Some? && target.value in before then before[target.value] else {})
      && (target.None? ==> batch == [] && redis.sets == before)
      && (target.Some? ==>
           && |batch| <= BATCH_SIZE
           && OthersSame(before, redis.sets, target.value)
           && redis.Members(target.value) == base + Elements(flushed)
           && written == |redis.Members(target.value)| - |base|)
    }

    constructor (redis: Redis, target: Option<string>)
      requires redis.Valid()
      ensures Ready() && this.redis == redis && this.target == target && before == redis.sets
      ensures stats == Stats(0, 0, 0, 0) && emitted == [] && offered == 0
    {
      this.redis := redis;
      this.target := target;
      stats := Stats(0, 0, 0, 0);
      seen := {};
      batch := [];
      written := 0;
      emitted, flushed, offered := [], [], 0;
      before := redis.sets;
      base := if target.Some? && target.value in redis.sets then redis.sets[target.value] else {};
    }

    /** Ready for the next candidate: a full batch has been flushed. */
    ghost predicate Ready()
      reads this, redis
    {
      Valid() && (target.Some? ==> |batch| < BATCH_SIZE)
    }

    method Flush() returns (ok: bool)
      requires Valid() && target.Some?
      modifies this`batch, this`written, this`flushed, redis`sets
      ensures Valid() && (ok ==> batch == [] && flushed == emitted)
      ensures !ok ==> batch == old(batch) && written == old(written) && flushed == old(flushed)
      ensures !ok ==> redis.sets == old(redis.sets)
    {
      if |batch| == 0 {
        return true;
      }
      ghost var last := redis.sets;
      var n := redis.SetAdd(target.value, batch);
      OthersSameTrans(before, last, redis.sets, target.value);
      if n.None? {
        assert redis.sets == last;
        return false;
      }
      written := written + n.value;
      ElementsConcat(flushed, batch);
      assert redis.Members(target.value) == base + Elements(emitted);
      flushed := emitted;
      batch := [];
      assert emitted == flushed + batch;
      return true;
    }

    /** The handler that Sync passes to ParseEach; domain has just been counted and noted as emitted. */
    method OnDomain(domain: string) returns (ok: bool)
      requires redis.Valid() && seen == Elements(emitted) && emitted == flushed + batch + [domain]
      requires Holds() && (target.Some? ==> |batch| < 1000)
      modifies this`batch, this`written, this`flushed, redis`sets
      ensures Valid() && (ok ==> Ready())
      ensures target.Some? && old(|batch|) < 999 ==>
                ok && batch == old(batch) + [domain] && redis.sets == old(redis.sets)
      ensures target.Some? && old(|batch|) == 999 && ok ==> batch == []
    {
      if target.None? {
        flushed := emitted;
        assert emitted == flushed + batch;
        return true;
      }
      batch := batch + [domain];
      assert emitted == flushed + batch;
      if |batch| >= BATCH_SIZE {
        ok := Flush();
      } else {
        ok := true;
      }
    }

    method AddDomain(domain: string) returns (ok: bool)
      requires Ready()
      modifies this, redis`sets
      ensures Valid() && (ok ==> Ready())
      ensures emitted == Offer(old(emitted), domain) && offered == old(offered) + 1
      ensures stats.invalid == old(stats.invalid) && stats.skipped == old(stats.skipped)
    {
      assert domain in seen <==> domain in emitted;
      offered := offered + 1;
      if domain in seen {
        stats := stats.(duplicates := stats.duplicates + 1);
        return true;
      }
      seen := seen + {domain};
      stats := stats.(valid := stats.valid + 1);
      emitted := emitted + [domain];
      ok := OnDomain(domain);
    }

    method CountSkipped()
      requires Ready()
      modifies this`stats
      ensures Ready() && stats == old(stats).(skipped := old(stats).skipped + 1)
    {
      stats := stats.(skipped := stats.skipped + 1);
    }

    method CountInvalid(n: nat)
      requires Ready()
      modifies this`stats
      ensures Ready() && stats == old(stats).(invalid := old(stats).invalid + n)
    {
      stats := stats.(invalid := stats.invalid + n);
    }

    /** One field of a line. ok is false when the handler failed. */
    method ParseField(norm: Normalizer, raw: string) returns (ok: bool, scan: FieldScan)
      requires Ready()
      modifies this, redis`sets
      ensures Valid() && (ok ==> Ready()) && scan == ScanField(norm, raw)
      ensures stats.invalid == old(stats.invalid) && stats.skipped == old(stats.skipped)
      ensures scan.Accepted? ==> emitted == Offer(old(emitted), scan.domain) && offered == old(offered) + 1
      ensures !scan.Accepted? ==> ok && emitted == old(emitted) && offered == old(offered)
    {
      var field := StripComment(TrimSpace(raw));
      if field == "" {
        return true, Blank;
      }
      var candidate := norm(field);
      if candidate.None? {
        return true, Rejected;
      }
      scan := Accepted(candidate.value);
      ok := AddDomain(candidate.value);
    }

    /** The inner loop over the fields of one line. ok is false when the handler failed. */
    method ParseFields(norm: Normalizer, fields: seq<string>)
        returns (ok: bool, parsedAny: bool, lineHadValid: bool, lineInvalid: nat)
      requires Ready()
      modifies this, redis`sets
      ensures Valid() && stats.invalid == old(stats.invalid) && stats.skipped == old(stats.skipped)
      ensures ok ==> Ready() && ScanFields(norm, fields).invalid == lineInvalid
      ensures ok ==> ScanFields(norm, fields).parsedAny == parsedAny
      ensures ok ==> lineHadValid == (ScanFields(norm, fields).accepted != [])
      ensures ok ==> emitted == OfferAll(old(emitted), ScanFields(norm, fields).accepted)
      ensures ok ==> offered == old(offered) + |ScanFields(norm, fields).accepted|
      ensures !ok ==> emitted <= OfferAll(old(emitted), ScanFields(norm, fields).accepted)
    {
      ghost var whole, todo := ScanFields(norm, fields), ScanFields(norm, fields);
      parsedAny, lineHadValid, lineInvalid := false, false, 0;
      assert fields[0..] == fields;
      for f := 0 to |fields|
        invariant Ready() && stats.invalid == old(stats.invalid) && stats.skipped == old(stats.skipped)
        invariant todo == ScanFields(norm, fields[f..])
        invariant OfferAll(emitted, todo.accepted) == OfferAll(old(emitted), whole.accepted)
        invariant offered + |todo.accepted| == old(offered) + |whole.accepted|
        invariant whole.invalid == lineInvalid + todo.invalid
        invariant whole.parsedAny == (parsedAny || todo.parsedAny)
        invariant (whole.accepted != []) == (lineHadValid || todo.accepted != [])
      {
        assert fields[f..][0] == fields[f] && fields[f..][1..] == fields[f + 1..];
        if IsComment(fields[f]) {
          break;
        }
        var scan;
        ok, scan := ParseField(norm, fields[f]);
        todo := ScanFields(norm, fields[f + 1..]);
        if !ok {
          OfferAllGrows(emitted, todo.accepted);
          return;
        }
        match scan
        case Blank =>
        case Rejected =>
          parsedAny := true;
          lineInvalid := lineInvalid + 1;
        case Accepted(_) =>
          parsedAny := true;
          lineHadValid := true;
      }
      ok := true;
    }

    method ParseLine(norm: Normalizer, raw: string) returns (ok: bool)
      requires Ready()
      modifies this, redis`sets
      ensures Valid() && (ok ==> Ready())
      ensures ok ==> emitted == OfferAll(old(emitted), ScanLine(norm, raw).accepted)
      ensures ok ==> offered == old(offered) + |ScanLine(norm, raw).accepted|
      ensures ok ==> stats.invalid == old(stats.invalid) + LineInvalid(norm, raw)
      ensures ok ==> stats.skipped == old(stats.skipped) + LineSkipped(norm, raw)
      ensures !ok ==> emitted <= OfferAll(old(emitted), ScanLine(norm, raw).accepted)
    {
      var line := TrimSpace(raw);
      if line == "" || IsComment(line) {
        CountSkipped();
        return true;
      }
      var parsedAny, lineHadValid, lineInvalid;
      ok, parsedAny, lineHadValid, lineInvalid := ParseFields(norm, FeedParse.Fields(line));
      if !ok {
        return;
      }
      if !parsedAny {
        ScanNothing(norm, FeedParse.Fields(line));
        CountSkipped();
      } else if lineHadValid {
        CountInvalid(lineInvalid);
      } else if lineInvalid > 0 {
        CountInvalid(1);
      }
    }

    /** ok is false when the handler failed or the scanner ended with an error. */
    method ParseText(norm: Normalizer, lines: seq<string>, scanFails: bool) returns (ok: bool)
      requires Ready() && stats.invalid == stats.skipped == 0
      modifies this, redis`sets
      ensures Valid()
      ensures ok ==> !scanFails && emitted == OfferAll(old(emitted), LinesAccepted(norm, lines))
      ensures ok ==> offered == old(offered) + |LinesAccepted(norm, lines)|
      ensures ok ==> stats.invalid == LinesInvalid(norm, lines) && stats.skipped == LinesSkipped(norm, lines)
      ensures !ok ==> emitted <= OfferAll(old(emitted), LinesAccepted(norm, lines))
    {
      assert lines[0..] == lines;
      for n := 0 to |lines|
        invariant Ready()
        invariant OfferAll(emitted, LinesAccepted(norm, lines[n..])) ==
                  OfferAll(old(emitted), LinesAccepted(norm, lines))
        invariant offered + |LinesAccepted(norm, lines[n..])| == old(offered) + |LinesAccepted(norm, lines)|
        invariant stats.invalid + LinesInvalid(norm, lines[n..]) == LinesInvalid(norm, lines)
        invariant stats.skipped + LinesSkipped(norm, lines[n..]) == LinesSkipped(norm, lines)
      {
        assert lines[n..][0] == lines[n] && lines[n..][1..] == lines[n + 1..];
        OfferAllConcat(emitted, ScanLine(norm, lines[n]).accepted, LinesAccepted(norm, lines[n + 1..]));
        OfferAllGrows(OfferAll(emitted, ScanLine(norm, lines[n]).accepted), LinesAccepted(norm, lines[n + 1..]));
        ok := ParseLine(norm, lines[n]);
        if !ok {
          return;
        }
      }
      ok := !scanFails;
    }

    method ParseRow(norm: Normalizer, row: Row) returns (ok: bool)
      requires Ready()
      modifies this, redis`sets
      ensures Valid() && (ok ==> Ready())
      ensures emitted == OfferAll(old(emitted), RowAccepted(norm, row))
      ensures offered == old(offered) + |RowAccepted(norm, row)|
      ensures stats.invalid == old(stats.invalid) + RowInvalid(norm, row)
      ensures stats.skipped == old(stats.skipped) + RowSkipped(row)
    {
      ok := true;
      if row.BadRow? {
        CountInvalid(1);
        return;
      }
      if |row.fields| == 0 {
        CountSkipped();
        return;
      }
      var domain := FirstField(norm, row.fields);
      if domain.None? {
        CountInvalid(1);
        return;
      }
      ok := AddDomain(domain.value);
    }

    method ParseCsv(norm: Normalizer, rows: seq<Row>) returns (ok: bool)
      requires Ready() && stats.invalid == stats.skipped == 0
      modifies this, redis`sets
      ensures Valid()
      ensures ok ==> emitted == OfferAll(old(emitted), RowsAccepted(norm, rows))
      ensures ok ==> offered == old(offered) + |RowsAccepted(norm, rows)|
      ensures ok ==> stats.invalid == RowsInvalid(norm, rows) && stats.skipped == RowsSkipped(rows)
      ensures !ok ==> emitted <= OfferAll(old(emitted), RowsAccepted(norm, rows))
    {
      assert rows[0..] == rows;
      for n := 0 to |rows|
        invariant Ready()
        invariant OfferAll(emitted, RowsAccepted(norm, rows[n..])) == OfferAll(old(emitted), RowsAccepted(norm, rows))
        invariant offered + |RowsAccepted(norm, rows[n..])| == old(offered) + |RowsAccepted(norm, rows)|
        invariant stats.invalid + RowsInvalid(norm, rows[n..]) == RowsInvalid(norm, rows)
        invariant stats.skipped + RowsSkipped(rows[n..]) == RowsSkipped(rows)
      {
        assert rows[n..][0] == rows[n] && rows[n..][1..] == rows[n + 1..];
        OfferAllConcat(emitted, RowAccepted(norm, rows[n]), RowsAccepted(norm, rows[n + 1..]));
        ok := ParseRow(norm, rows[n]);
        if !ok {
          OfferAllGrows(emitted, RowsAccepted(norm, rows[n + 1..]));
          return;
        }
      }
      ok := true;
    }
  }

  /** A line on which nothing was parsed has no candidate and no reject. */
  lemma {:induction false} ScanNothing(norm: Normalizer, fields: seq<string>)
    requires !ScanFields(norm, fields).parsedAny
    ensures ScanFields(norm, fields) == LineScan([], 0, false)
    decreases |fields|
  {
    if |fields| > 0 && !IsComment(fields[0]) {
      ScanNothing(norm, fields[1..]);
    }
  }

  /** firstDomain: the first field of a row that normalises. */
  method FirstField(norm: Normalizer, fields: seq<string>) returns (domain: Option<string>)
    ensures domain == FirstDomain(norm, fields)
  {
    for n := 0 to |fields|
      invariant FirstDomain(norm, fields) == FirstDomain(norm, fields[n..])
    {
      assert fields[n..][0] == fields[n] && fields[n..][1..] == fields[n + 1..];
      var field := StripComment(TrimSpace(fields[n]));
      if field == "" {
        continue;
      }
      var candidate := norm(field);
      if candidate.Some? {
        return candidate;
      }
    }
    return None;
  }

  // ---- Sync ----

  datatype Options = Options(dryRun: bool, replace: bool, minWrites: int)

  datatype Report = Report(stats: Stats, written: nat, invalidated: bool, revision: Option<int>)

  datatype Stage = Opening | Parsing | Flushing | Deleting | Renaming(result: RenameResult) | Bumping | Reporting

  datatype Outcome = Ok(report: Report) | Failed(stage: Stage)

  /** The sync got as far as bumping the revision. */
  predicate Published(outcome: Outcome) {
    outcome.Ok? || outcome.stage.Bumping? || outcome.stage.Reporting?
  }

  function MinWrites(value: int): int {
    if value <= 0 then DEFAULT_MIN_WRITES else value
  }

  function Parsed(norm: Normalizer, source: Source): seq<string> {
    Dedup(Accepted(norm, source))
  }

  /** The counts of a fully parsed source. */
  predicate StatsMatch(norm: Normalizer, source: Source, stats: Stats) {
    && stats.valid == |Parsed(norm, source)|
    && stats.valid + stats.duplicates == |Accepted(norm, source)|
    && (source.Text? ==>
         stats.invalid == LinesInvalid(norm, source.lines) && stats.skipped == LinesSkipped(norm, source.lines))
    && (source.Csv? ==> stats.valid + stats.duplicates + stats.invalid + stats.skipped == |source.rows|)
  }

  method ParseEach(ingest: Ingest, norm: Normalizer, source: Source) returns (ok: bool)
    requires ingest.Ready() && ingest.emitted == [] && ingest.offered == 0 && ingest.stats == Stats(0, 0, 0, 0)
    modifies ingest, ingest.redis`sets
    ensures ingest.Valid()
    ensures ok ==> ingest.emitted == Parsed(norm, source) && StatsMatch(norm, source, ingest.stats)
    ensures !ok ==> ingest.emitted <= Parsed(norm, source)
  {
    OfferAllIsDedup(Accepted(norm, source));
    match source
    case Text(lines, scanFails) =>
      ok := ingest.ParseText(norm, lines, scanFails);
    case Csv(rows) =>
      EveryRowCounted(norm, rows);
      ok := ingest.ParseCsv(norm, rows);
  }

  /** The part of Sync up to the point where the parsed domains are all in the target key. */
  method Fill(redis: Redis, norm: Normalizer, source: Source, target: string)
      returns (failure: Option<Stage>, stats: Stats, written: nat)
    requires redis.Valid()
    modifies redis`sets
    ensures redis.Valid() && OthersSame(old(redis.sets), redis.sets, target)
    ensures failure.None? ==> StatsMatch(norm, source, stats)
    ensures failure.None? ==> redis.Members(target) == old(redis.Members(target)) + Elements(Parsed(norm, source))
    ensures failure.None? ==> written == |redis.Members(target)| - |old(redis.Members(target))|
    ensures failure.Some? ==> failure.value == Parsing || failure.value == Flushing
    ensures failure.Some? ==> old(redis.Members(target)) <= redis.Members(target)
                              <= old(redis.Members(target)) + Elements(Parsed(norm, source))
  {
    var ingest := new Ingest(redis, Some(target));
    var ok := ParseEach(ingest, norm, source);
    stats, written := ingest.stats, ingest.written;
    if !ok {
      ElementsOfPart(ingest.flushed, Parsed(norm, source));
      return Some(Parsing), stats, written;
    }
    ok := ingest.Flush();
    written := ingest.written;
    ElementsOfPart(ingest.flushed, Parsed(norm, source));
    if !ok {
      return Some(Flushing), stats, written;
    }
    return None, stats, written;
  }

  lemma ElementsOfPart(a: seq<string>, b: seq<string>)
    requires a <= b
    ensures Elements(a) <= Elements(b)
  {
    ElementsConcat(a, b[|a|..]);
    assert b == a + b[|a|..];
  }

  // ---- Runs of syncs ----

  /** The live set, and what it was when the revision was last bumped. */
  datatype Live = Live(members: set<string>, announced: set<string>)
  {
    predicate AllAnnounced() {
      members <= announced
    }
  }

  /** One sync of a run: what was parsed, and what reached the live set before an adding sync failed. */
  datatype Attempt = Attempt(options: Options, outcome: Outcome, parsed: set<string>, landed: set<string>)
  {
    predicate Real() {
      !options.replace && !options.dryRun && !Published(outcome) ==> landed <= parsed
    }

    function Result(before: set<string>): set<string> {
      if options.dryRun then before
      else if options.replace then (if Published(outcome) then parsed else before)
      else before + (if Published(outcome) then parsed else landed)
    }

    /** How many members are new, as an adding sync counts them. */
    function Growth(before: set<string>): int {
      |Result(before)| - |before|
    }

    predicate Bumps(before: set<string>) {
      !options.dryRun && Moves(options, outcome, Growth(before))
    }
  }

  function Attempted(s: Live, a: Attempt): Live {
    var members := a.Result(s.members);
    Live(members, if a.Bumps(s.members) then members else s.announced)
  }

  function AfterAll(s: Live, run: seq<Attempt>): Live {
    if |run| == 0 then s else Attempted(AfterAll(s, run[..|run| - 1]), run[|run| - 1])
  }

  /** The sync replaced the set and then failed to bump the revision. */
  predicate HalfReplaced(a: Attempt) {
    a.options.replace && !a.options.dryRun && a.outcome == Failed(Bumping)
  }

  /** Since the last bump, whatever a sync put into the live set had been announced. */
  predicate OnlyAnnounced(s: Live, run: seq<Attempt>) {
    if |run| == 0 then s.AllAnnounced()
    else
      var init, last := AfterAll(s, run[..|run| - 1]), run[|run| - 1];
      || last.Bumps(init.members)
      || (if HalfReplaced(last) then last.parsed <= init.announced
          else OnlyAnnounced(s, run[..|run| - 1]) && last.Result(init.members) - init.members <= init.announced)
  }

  /** Over all runs of syncs, however they end: every live member was in the feed at the last bump exactly when all
      that syncs have put there since had been announced. */
  lemma {:induction false} AnnouncedExactly(s: Live, run: seq<Attempt>)
    ensures AfterAll(s, run).AllAnnounced() <==> OnlyAnnounced(s, run)
    decreases |run|
  {
    if |run| > 0 {
      AnnouncedExactly(s, run[..|run| - 1]);
    }
  }

  /** Since the last bump, no sync has found anything new to write. */
  predicate QuietSinceBump(s: Live, run: seq<Attempt>) {
    if |run| == 0 then s.members == s.announced
    else
      var init, last := AfterAll(s, run[..|run| - 1]), run[|run| - 1];
      last.Bumps(init.members) || (QuietSinceBump(s, run[..|run| - 1]) && last.Growth(init.members) == 0)
  }

  lemma GrowthOfSuperset(small: set<string>, large: set<string>)
    requires small <= large
    ensures |large| == |small| <==> large == small
  {
    assert large == small + (large - small);
  }

  lemma {:induction false} AnnouncedStays(s: Live, run: seq<Attempt>)
    requires s.announced <= s.members && forall i :: 0 <= i < |run| ==> !HalfReplaced(run[i])
    ensures AfterAll(s, run).announced <= AfterAll(s, run).members
    decreases |run|
  {
    if |run| > 0 {
      AnnouncedStays(s, run[..|run| - 1]);
    }
  }

  /** In runs in which no replacing sync fails just at its bump, that is exactly when no sync since then has written
      anything new, by its own count. */
  lemma {:induction false} QuietExactly(s: Live, run: seq<Attempt>)
    requires s.announced <= s.members && forall i :: 0 <= i < |run| ==> !HalfReplaced(run[i])
    ensures AfterAll(s, run).AllAnnounced() <==> QuietSinceBump(s, run)
    decreases |run|
  {
    if |run| > 0 {
      var init, last := AfterAll(s, run[..|run| - 1]), run[|run| - 1];
      QuietExactly(s, run[..|run| - 1]);
      AnnouncedStays(s, run[..|run| - 1]);
      if !last.Bumps(init.members) {
        assert init.members <= last.Result(init.members);
        GrowthOfSuperset(init.members, last.Result(init.members));
      }
    }
  }

  /** Adding syncs of domains that are already live change nothing, however many there are and however they end: what
      one failed bump has left unannounced they leave unannounced. */
  lemma {:induction false} KnownDomainsAnnounceNothing(s: Live, run: seq<Attempt>)
    requires forall i :: 0 <= i < |run| ==>
      run[i].Real() && !run[i].options.replace && run[i].parsed <= s.members
    ensures AfterAll(s, run) == s
    decreases |run|
  {
    if |run| > 0 {
      KnownDomainsAnnounceNothing(s, run[..|run| - 1]);
      var last := run[|run| - 1];
      assert last.Result(s.members) == s.members;
      assert MinWrites(last.options.minWrites) >= 1;
    }
  }

  /** One adding sync that fails at its bump, and any number of retries: the retries end well, and the domain stays
      unannounced. */
  lemma RetriesNeverAnnounce(domain: string, options: Options, retries: seq<Attempt>)
    requires !options.replace && !options.dryRun && options.minWrites <= 1
    requires forall i :: 0 <= i < |retries| ==>
      retries[i].outcome.Ok? && !retries[i].options.replace && retries[i].parsed == {domain}
    ensures var s := Attempted(Live({}, {}), Attempt(options, Failed(Bumping), {domain}, {}));
      && Announces(options, |s.members|)
      && domain in AfterAll(s, retries).members && domain !in AfterAll(s, retries).announced
  {
    var a := Attempt(options, Failed(Bumping), {domain}, {});
    assert a.Result({}) == {domain};
    KnownDomainsAnnounceNothing(Attempted(Live({}, {}), a), retries);
  }

  // ---- The sync ----

  function ParsedSet(norm: Normalizer, input: Option<Source>): set<string> {
    if input.Some? then Elements(Parsed(norm, input.value)) else {}
  }

  /** The sync is an attempt of a run: it takes one live set to the other. */
  predicate IsAttempt(options: Options, outcome: Outcome, before: set<string>, after: set<string>,
                      parsed: set<string>)
  {
    var a := Attempt(options, outcome, parsed, after - before);
    a.Real() && after == a.Result(before)
  }

  lemma FitsAttempt(options: Options, outcome: Outcome, before: set<string>, after: set<string>, parsed: set<string>)
    requires options.dryRun ==> after == before
    requires !options.dryRun && options.replace ==> after == if Published(outcome) then parsed else before
    requires !options.dryRun && !options.replace && Published(outcome) ==> after == before + parsed
    requires !options.dryRun && !options.replace && !Published(outcome) ==> before <= after <= before + parsed
    ensures IsAttempt(options, outcome, before, after, parsed)
  {
    assert before <= after ==> after == before + (after - before);
  }

  /** input is the source, or None when it could not be input. staging is the fresh, timestamped staging key. */
  method Sync(redis: Redis, norm: Normalizer, input: Option<Source>, key: string, staging: string,
              revisionKey: string, options: Options) returns (outcome: Outcome)
    requires redis.Valid() && staging != key && staging !in redis.sets
    modifies redis
    ensures redis.Valid()
    ensures options.dryRun ==> redis.sets == old(redis.sets) && redis.counters == old(redis.counters)
    // no other key is touched
    ensures OthersSame(old(redis.sets), redis.sets - {staging}, key)
    // statistics of a successful run, dry or not
    ensures outcome.Ok? ==> input.Some? && StatsMatch(norm, input.value, outcome.report.stats)
    // replacing: each domain written once, and exactly the parsed set live, also when only the end has failed
    ensures outcome.Ok? && !options.dryRun && options.replace ==>
              outcome.report.written == outcome.report.stats.valid
    ensures !options.dryRun && options.replace && Published(outcome) ==>
              input.Some? && redis.Members(key) == Elements(Parsed(norm, input.value))
    // adding: the union, and the growth
    ensures outcome.Ok? && !options.dryRun && !options.replace ==>
              outcome.report.written == |redis.Members(key)| - |old(redis.Members(key))|
    ensures !options.dryRun && !options.replace && Published(outcome) ==>
              input.Some? &&
              redis.Members(key) == old(redis.Members(key)) + Elements(Parsed(norm, input.value))
    // a replacing sync that fails before it has published leaves the live key alone
    ensures options.replace && !Published(outcome) ==> SameKey(old(redis.sets), redis.sets, key)
    // an adding sync that fails has added only parsed domains
    ensures outcome.Failed? && !options.replace ==> old(redis.Members(key)) <= redis.Members(key)
    ensures outcome.Failed? && !options.replace && input.Some? ==>
              redis.Members(key) <= old(redis.Members(key)) + Elements(Parsed(norm, input.value))
    // the staging key always exists when it is renamed
    ensures outcome != Failed(Renaming(NoSuchKey))
    ensures !options.dryRun ==>
              RevisionMoves(old(redis.counters), redis.counters, revisionKey, options, outcome,
                            |redis.Members(key)| - |old(redis.Members(key))|)
    // the sync, as an attempt in a run of syncs
    ensures IsAttempt(options, outcome, old(redis.Members(key)), redis.Members(key), ParsedSet(norm, input))
  {
    ghost var start, members := redis.sets, redis.Members(key);
    if input.None? {
      outcome := Failed(Opening);
      FitsAttempt(options, outcome, members, members, {});
      return;
    }
    if options.dryRun {
      outcome := DryRun(redis, norm, input.value);
      UnstagedFrame(start, redis.sets, key, staging);
    } else if options.replace {
      outcome := Replace(redis, norm, input.value, key, staging, revisionKey, options);
    } else {
      outcome := Extend(redis, norm, input.value, key, revisionKey, options);
      UnstagedFrame(start, redis.sets, key, staging);
    }
    FitsAttempt(options, outcome, members, redis.Members(key), ParsedSet(norm, input));
  }

  lemma UnstagedFrame(a: map<string, set<string>>, b: map<string, set<string>>, key: string, staging: string)
    requires staging !in a && staging != key && OthersSame(a, b, key)
    ensures OthersSame(a, b - {staging}, key)
  {
    assert SameKey(a, b, staging);
    forall k | k != key
      ensures SameKey(a, b - {staging}, k)
    {
      assert SameKey(a, b, k);
    }
  }

  method DryRun(redis: Redis, norm: Normalizer, source: Source) returns (outcome: Outcome)
    requires redis.Valid()
    modifies redis`sets
    ensures redis.Valid() && redis.sets == old(redis.sets)
    ensures outcome.Ok? ==> StatsMatch(norm, source, outcome.report.stats)
    ensures outcome.Failed? ==> outcome.stage.Parsing?
  {
    var ingest := new Ingest(redis, None);
    var parsed := ParseEach(ingest, norm, source);
    return if parsed then Ok(Report(ingest.stats, 0, false, None)) else Failed(Parsing);
  }

  /** An adding sync: the batches go to the live key. */
  method Extend(redis: Redis, norm: Normalizer, source: Source, key: string, revisionKey: string, options: Options)
      returns (outcome: Outcome)
    requires redis.Valid() && !options.replace
    modifies redis
    ensures outcome.Failed? ==> !outcome.stage.Renaming?
    ensures redis.Valid() && OthersSame(old(redis.sets), redis.sets, key)
    ensures outcome.Ok? ==> StatsMatch(norm, source, outcome.report.stats)
    ensures Published(outcome) ==> redis.Members(key) == old(redis.Members(key)) + Elements(Parsed(norm, source))
    ensures outcome.Ok? ==> outcome.report.written == |redis.Members(key)| - |old(redis.Members(key))|
    ensures outcome.Failed? ==> old(redis.Members(key)) <= redis.Members(key)
                                <= old(redis.Members(key)) + Elements(Parsed(norm, source))
    ensures RevisionMoves(old(redis.counters), redis.counters, revisionKey, options, outcome,
                          |redis.Members(key)| - |old(redis.Members(key))|)
  {
    var failure, stats, written := Fill(redis, norm, source, key);
    if failure.Some? {
      return Failed(failure.value);
    }
    outcome := Announce(redis, revisionKey, options, stats, written);
  }

  /** A replacing sync: the batches go to the staging key, which is then moved over the live key. */
  method Replace(redis: Redis, norm: Normalizer, source: Source, key: string, staging: string,
                 revisionKey: string, options: Options) returns (outcome: Outcome)
    requires redis.Valid() && staging != key && staging !in redis.sets && options.replace
    modifies redis
    ensures redis.Valid() && OthersSame(old(redis.sets), redis.sets - {staging}, key)
    ensures outcome.Ok? ==> StatsMatch(norm, source, outcome.report.stats)
    ensures outcome.Ok? ==> outcome.report.written == outcome.report.stats.valid
    ensures if Published(outcome) then redis.Members(key) == Elements(Parsed(norm, source))
            else SameKey(old(redis.sets), redis.sets, key)
    ensures outcome != Failed(Renaming(NoSuchKey))
    ensures RevisionMoves(old(redis.counters), redis.counters, revisionKey, options, outcome, 0)
  {
    ghost var start := redis.sets;
    var failure, stats, written := Fill(redis, norm, source, staging);
    ghost var filled := redis.sets;
    assert SameKey(start, filled, key);
    if failure.Some? {
      Unstage(redis, key, staging);
      outcome := Failed(failure.value);
    } else {
      WrittenIsValid(norm, source);
      outcome := Commit(redis, key, staging, revisionKey, options, stats, written);
    }
    StagedFrame(start, filled, redis.sets, key, staging);
  }

  /** Clearing up after a failure; whether that works is not looked at. */
  method Unstage(redis: Redis, key: string, staging: string)
    requires redis.Valid() && key != staging
    modifies redis`sets
    ensures redis.Valid() && redis.sets - {staging} == old(redis.sets) - {staging}
    ensures OthersSame(old(redis.sets) - {staging}, redis.sets - {staging}, key)
    ensures SameKey(old(redis.sets), redis.sets, key)
  {
    var _ := redis.Delete(staging);
  }

  /** The end of a replacing sync: publish the staged set, then announce it. */
  method Commit(redis: Redis, key: string, staging: string, revisionKey: string, options: Options, stats: Stats,
                written: nat) returns (outcome: Outcome)
    requires redis.Valid() && key != staging && |redis.Members(staging)| == stats.valid && options.replace
    modifies redis
    ensures redis.Valid() && OthersSame(old(redis.sets) - {staging}, redis.sets - {staging}, key)
    ensures if Published(outcome) then redis.Members(key) == old(redis.Members(staging))
            else SameKey(old(redis.sets), redis.sets, key)
    ensures outcome.Ok? ==> outcome.report.stats == stats && outcome.report.written == written
    ensures outcome != Failed(Renaming(NoSuchKey))
    ensures RevisionMoves(old(redis.counters), redis.counters, revisionKey, options, outcome, 0)
  {
    var failure := Publish(redis, key, staging, stats.valid);
    if failure.Some? {
      return Failed(failure.value);
    }
    outcome := Announce(redis, revisionKey, options, stats, written);
  }

  lemma WrittenIsValid(norm: Normalizer, source: Source)
    ensures |Elements(Parsed(norm, source))| == |Parsed(norm, source)|
  {
    DedupElements(Accepted(norm, source));
    DistinctCount(Parsed(norm, source));
  }

  /** A sync announces what it published when it replaced the set or added enough. */
  predicate Announces(options: Options, written: int) {
    options.replace || written >= MinWrites(options.minWrites)
  }

  /** Unless told otherwise, one new member is enough; a positive setting is the number needed. */
  lemma EnoughToAnnounce(options: Options, written: int)
    ensures options.replace ==> Announces(options, written)
    ensures !options.replace && options.minWrites <= 0 ==> (Announces(options, written) <==> written >= 1)
    ensures !options.replace && options.minWrites > 0 ==>
              (Announces(options, written) <==> written >= options.minWrites)
  {
  }

  /** Whether the sync got past a bump of the revision that was due. */
  predicate Moves(options: Options, outcome: Outcome, written: int) {
    Published(outcome) && outcome != Failed(Bumping) && Announces(options, written)
  }

  /** The revision moves by one, after publication, when that was due and did not fail. */
  predicate RevisionMoves(before: map<string, int>, after: map<string, int>, revisionKey: string, options: Options,
                          outcome: Outcome, written: int)
  {
    && (outcome.Ok? ==> (outcome.report.invalidated <==> Announces(options, written)))
    && after == if Moves(options, outcome, written) then before[revisionKey := Counter(before, revisionKey) + 1]
                else before
  }

  function Counter(counters: map<string, int>, key: string): int {
    if key in counters then counters[key] else 0
  }

  /** Moving the staged set over the live key, or deleting the live key when nothing was parsed. */
  method Publish(redis: Redis, key: string, staging: string, valid: nat) returns (failure: Option<Stage>)
    requires redis.Valid() && key != staging && |redis.Members(staging)| == valid
    modifies redis`sets
    ensures redis.Valid() && OthersSame(old(redis.sets) - {staging}, redis.sets - {staging}, key)
    ensures failure.None? ==> redis.Members(key) == old(redis.Members(staging))
    ensures failure.Some? ==> SameKey(old(redis.sets), redis.sets, key)
    ensures failure.Some? ==> failure.value == Deleting || failure.value == Renaming(RenameFailed)
  {
    if valid == 0 {
      var deleted := redis.Delete(key);
      var _ := redis.Delete(staging);
      return if deleted then None else Some(Deleting);
    }
    var result := redis.Rename(staging, key);
    if result.Renamed? {
      return None;
    }
    var _ := redis.Delete(staging);
    return Some(Renaming(result));
  }

  /** The revision bump and the status record that end a sync. */
  method Announce(redis: Redis, revisionKey: string, options: Options, stats: Stats, written: nat)
      returns (outcome: Outcome)
    modifies redis`counters
    ensures outcome.Ok? ==> outcome.report.stats == stats && outcome.report.written == written
    ensures Published(outcome)
    ensures RevisionMoves(old(redis.counters), redis.counters, revisionKey, options, outcome, written)
  {
    var report := Report(stats, written, false, None);
    if written >= MinWrites(options.minWrites) || options.replace {
      var revision := redis.Increment(revisionKey);
      if revision.None? {
        return Failed(Bumping);
      }
      report := report.(invalidated := true, revision := revision);
    } else {
      var readable: bool := *;
      if readable {
        report := report.(revision := Some(Counter(redis.counters, revisionKey)));
      }
    }
    var recorded: bool := *;
    return if recorded then Ok(report) else Failed(Reporting);
  }
}
