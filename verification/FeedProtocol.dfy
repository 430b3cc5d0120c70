/** Feed publication against the analysis cache: any number of analysers and syncs over shared Redis state,
    interleaved one Redis command at a time. */
module FeedProtocol {
  import opened Labels
  import opened Verdicts
  import opened Wrappers

  // Time is the number of commands executed so far. The fields at, read, seen, hit and wrote, and the queries of an
  // entry, record history for the statements below; no command depends on them. The queries of an analyser are also
  // its place in the candidate loop.

  /** One membership query of the feed set. */
  datatype Read = Read(candidate: string, at: nat, present: bool)

  /** A cached analysis. revision is the label written with it, 0 for an absent one; current tells whether it
      carries this algorithm's revision; seen whether every feed query behind its result succeeded. */
  datatype Entry = Entry(domain: string, result: Result, revision: nat, current: bool, queries: seq<Read>, seen: bool)

  datatype Phase = Started | Looking | Blind | Cached(entry: Entry) | Ready(result: Result) | Returned(result: Result)

  /** One analysis. revision is the feed revision it read at time at, 0 when the key was missing or the read failed;
      read tells whether that read succeeded, seen whether every feed query behind its result did, hit whether the
      result comes from the cache. Blind: a feed query has failed, which ends the candidate loop without a match. */
  datatype Analyser = Analyser(domain: string, revision: nat, at: nat, queries: seq<Read>,
                               read: bool, seen: bool, hit: bool, phase: Phase)

  /** One feed sync: what it has written so far, how many of these were new, and whether it replaces the whole set. */
  datatype Sync = Filling(wrote: set<string>, added: nat, whole: bool) | Bumped(wrote: set<string>, at: nat)

  /** feeds[t] is the feed set after t commands; bumps[r] is the time at which the revision became r. */
  datatype State = State(feeds: seq<set<string>>, bumps: seq<nat>, cache: map<string, Entry>, inFlight: set<Entry>,
                         analysers: map<nat, Analyser>, syncs: map<nat, Sync>)
  {
    function Now(): nat {
      |feeds|
    }

    function Feed(): set<string>
      requires |feeds| > 0
    {
      feeds[|feeds| - 1]
    }

    function Revision(): nat
      requires |bumps| > 0
    {
      |bumps| - 1
    }
  }

  datatype Step =
    | Begin(id: nat, domain: string)          // GET of the revision
    | BeginBlind(id: nat, domain: string)     // the same, failing
    | ReadCache(id: nat)
    | ReadCacheFails(id: nat)
    | ReadFeed(id: nat)                       // SISMEMBER of the next candidate
    | ReadFeedFails(id: nat)
    | Decide(id: nat, c: Config, signs: Signals, x: Inputs)
    | Serve(id: nat, osint: Osint)
    | Send(id: nat)                           // a SET of the cache entry leaves the analyser
    | Return(id: nat)
    | Land(entry: Entry)                      // and reaches Redis, at any later time, or never
    | Lose(entry: Entry)
    | Expire(domain: string)
    | Add(sync: nat, batch: set<string>)      // SADD to the live key
    | Replace(sync: nat, domains: set<string>) // RENAME of a staged set, or DEL
    | Bump(sync: nat)                         // INCR of the revision

  predicate Accepts(entry: Entry, revision: nat) {
    entry.result.domain != "" && entry.current && (revision == 0 || entry.revision == revision)
  }

  predicate Found(queries: seq<Read>) {
    |queries| > 0 && queries[|queries| - 1].present
  }

  /** The candidate loop is over: a match, or no candidate left. */
  predicate Exhausted(a: Analyser) {
    Found(a.queries) || |a.queries| == |Candidates(a.domain)|
  }

  predicate In(s: State, id: nat, phase: Phase) {
    id in s.analysers && s.analysers[id].phase == phase
  }

  ghost predicate Enabled(s: State, step: Step) {
    |s.feeds| > 0 && |s.bumps| > 0 &&
    match step
    case Begin(id, domain) => id !in s.analysers && domain != ""
    case BeginBlind(id, domain) => id !in s.analysers && domain != ""
    case ReadCache(id) => In(s, id, Started)
    case ReadCacheFails(id) => In(s, id, Started)
    case ReadFeed(id) =>
      In(s, id, Looking) && !Found(s.analysers[id].queries) &&
      |s.analysers[id].queries| < |Candidates(s.analysers[id].domain)|
    case ReadFeedFails(id) =>
      In(s, id, Looking) && !Found(s.analysers[id].queries) &&
      |s.analysers[id].queries| < |Candidates(s.analysers[id].domain)|
    case Decide(id, _, _, x) =>
      id in s.analysers && ValidInputs(x) &&
      (s.analysers[id].phase.Blind? || (s.analysers[id].phase.Looking? && Exhausted(s.analysers[id])))
    case Serve(id, _) => id in s.analysers && s.analysers[id].phase.Cached?
    case Send(id) => id in s.analysers && s.analysers[id].phase.Ready?
    case Return(id) => id in s.analysers && s.analysers[id].phase.Ready?
    case Land(entry) => entry in s.inFlight
    case Lose(entry) => entry in s.inFlight
    case Expire(domain) => domain in s.cache
    case Add(id, batch) => batch != {} && (id in s.syncs ==> s.syncs[id].Filling? && !s.syncs[id].whole)
    case Replace(id, _) => id !in s.syncs
    case Bump(id) => id in s.syncs && s.syncs[id].Filling? && (s.syncs[id].whole || s.syncs[id].added >= 1)
  }

  function Move(s: State, id: nat, a: Analyser): State {
    s.(analysers := s.analysers[id := a])
  }

  function Wrote(s: State, id: nat): set<string> {
    if id in s.syncs then s.syncs[id].wrote else {}
  }

  function Added(s: State, id: nat): nat {
    if id in s.syncs && s.syncs[id].Filling? then s.syncs[id].added else 0
  }

  /** The result of a cache miss. */
  function Decided(a: Analyser, c: Config, signs: Signals, x: Inputs): Result {
    Finished(x, if Found(a.queries) then FeedMatch(a.domain) else Lexical(c, a.domain, signs))
  }

  function EntryOf(a: Analyser): Entry
    requires a.phase.Ready?
  {
    Entry(a.domain, a.phase.result, a.revision, true, a.queries, a.seen)
  }

  function Begun(s: State, domain: string, read: bool): Analyser
    requires |s.bumps| > 0
  {
    Analyser(domain, if read then s.Revision() else 0, s.Now(), [], read, true, false, Started)
  }

  /** The effect of one command on everything but the clock. */
  ghost function Effect(s: State, step: Step): State
    requires Enabled(s, step)
  {
    match step
    case Begin(id, domain) => Move(s, id, Begun(s, domain, true))
    case BeginBlind(id, domain) => Move(s, id, Begun(s, domain, false))
    case ReadCache(id) =>
      var a := s.analysers[id];
      if a.domain in s.cache && Accepts(s.cache[a.domain], a.revision) then
        Move(s, id, a.(phase := Cached(s.cache[a.domain]), hit := true))
      else Move(s, id, a.(phase := Looking))
    case ReadCacheFails(id) => Move(s, id, s.analysers[id].(phase := Looking))
    case ReadFeed(id) =>
      var a := s.analysers[id];
      Move(s, id, a.(queries := a.queries + [NextQuery(s, a)]))
    case ReadFeedFails(id) => Move(s, id, s.analysers[id].(seen := false, phase := Blind))
    case Decide(id, c, signs, x) =>
      var a := s.analysers[id];
      Move(s, id, a.(phase := Ready(Decided(a, c, signs, x))))
    case Serve(id, osint) =>
      var a := s.analysers[id];
      var entry := a.phase.entry;
      Move(s, id, a.(phase := Ready(WithOSINT(osint, entry.result)), queries := entry.queries, seen := entry.seen))
    case Send(id) => s.(inFlight := s.inFlight + {EntryOf(s.analysers[id])})
    case Return(id) => Move(s, id, s.analysers[id].(phase := Returned(s.analysers[id].phase.result)))
    case Land(entry) => s.(cache := s.cache[entry.domain := entry], inFlight := s.inFlight - {entry})
    case Lose(entry) => s.(inFlight := s.inFlight - {entry})
    case Expire(domain) => s.(cache := s.cache - {domain})
    case Add(id, batch) =>
      s.(syncs := s.syncs[id := Filling(Wrote(s, id) + batch, Added(s, id) + |batch - s.Feed()|, false)])
    case Replace(id, domains) => s.(syncs := s.syncs[id := Filling(domains, 0, true)])
    case Bump(id) => s.(bumps := s.bumps + [s.Now()], syncs := s.syncs[id := Bumped(s.syncs[id].wrote, s.Now())])
  }

  function FeedAfter(feed: set<string>, step: Step): set<string> {
    match step
    case Add(_, batch) => feed + batch
    case Replace(_, domains) => domains
    case _ => feed
  }

  ghost function Apply(s: State, step: Step): State
    requires Enabled(s, step)
  {
    var after := Effect(s, step);
    after.(feeds := s.feeds + [FeedAfter(s.Feed(), step)])
  }

  ghost predicate Possible(s: State, steps: seq<Step>)
    decreases |steps|
  {
    |steps| == 0 || (Enabled(s, steps[0]) && Possible(Apply(s, steps[0]), steps[1..]))
  }

  ghost function After(s: State, steps: seq<Step>): State
    requires Possible(s, steps)
    decreases |steps|
  {
    if |steps| == 0 then s else After(Apply(s, steps[0]), steps[1..])
  }

  /** Any feed, no revision key yet, and a cache whose entries, if any, carry another algorithm revision. */
  ghost predicate Initial(s: State) {
    |s.feeds| == 1 && s.bumps == [0] && s.inFlight == {} && s.analysers == map[] && s.syncs == map[] &&
    forall d :: d in s.cache ==> !s.cache[d].current && s.cache[d].domain == d
  }

  // ---- What every interleaving keeps ----

  /** The reads were made from time since on, ask for the candidates in order, and tell what the feed held. */
  ghost predicate Truthful(feeds: seq<set<string>>, domain: string, queries: seq<Read>, since: nat) {
    && |queries| <= |Candidates(domain)|
    && forall i :: 0 <= i < |queries| ==> TrueRead(feeds, domain, queries, since, i)
  }

  ghost predicate TrueRead(feeds: seq<set<string>>, domain: string, queries: seq<Read>, since: nat, i: nat)
    requires i < |queries| <= |Candidates(domain)|
  {
    && since <= queries[i].at < |feeds|
    && queries[i].candidate == Candidates(domain)[i]
    && (queries[i].present <==> queries[i].candidate in feeds[queries[i].at])
    && (queries[i].present ==> i == |queries| - 1)
  }

  /** A result behind which every read succeeded: a match found, and then malicious, or every candidate absent. */
  ghost predicate Explained(domain: string, result: Result, queries: seq<Read>) {
    if Found(queries) then result.verdict == Malicious else |queries| == |Candidates(domain)|
  }

  ghost predicate EntryOk(s: State, e: Entry) {
    e.current ==>
      && e.revision < |s.bumps|
      && Truthful(s.feeds, e.domain, e.queries, s.bumps[e.revision])
      && (e.seen ==> Explained(e.domain, e.result, e.queries))
  }

  /** The revision read at time at was the current one then, or the read failed. */
  ghost predicate StampOk(s: State, revision: nat, at: nat, read: bool) {
    && revision < |s.bumps| && s.bumps[revision] <= at < |s.feeds|
    && (read && revision + 1 < |s.bumps| ==> at < s.bumps[revision + 1])
  }

  ghost predicate HitOk(s: State, domain: string, revision: nat, entry: Entry)
    requires revision < |s.bumps|
  {
    && entry.domain == domain && Accepts(entry, revision)
    && Truthful(s.feeds, domain, entry.queries, s.bumps[revision])
    && (entry.seen ==> Explained(domain, entry.result, entry.queries))
  }

  /** Own reads come after the analysis began, those of a cached entry after the revision read was reached. */
  function Since(s: State, a: Analyser): nat
    requires a.revision < |s.bumps|
  {
    if a.hit then s.bumps[a.revision] else a.at
  }

  ghost predicate AnalyserOk(s: State, a: Analyser) {
    && a.domain != "" && StampOk(s, a.revision, a.at, a.read)
    && Truthful(s.feeds, a.domain, a.queries, Since(s, a))
    && match a.phase
       case Started => a.queries == [] && !a.hit
       case Looking => !a.hit
       case Blind => !a.hit && !a.seen && !Found(a.queries)
       case Cached(entry) => a.hit && HitOk(s, a.domain, a.revision, entry)
       case Ready(result) => a.seen ==> Explained(a.domain, result, a.queries)
       case Returned(result) => a.seen ==> Explained(a.domain, result, a.queries)
  }

  ghost predicate Inv(s: State) {
    && |s.feeds| > 0 && |s.bumps| > 0 && s.bumps[0] == 0
    && (forall q, r :: 0 <= q < r < |s.bumps| ==> s.bumps[q] < s.bumps[r])
    && (forall r :: 0 <= r < |s.bumps| ==> s.bumps[r] < |s.feeds|)
    && (forall d :: d in s.cache ==> s.cache[d].domain == d && EntryOk(s, s.cache[d]))
    && (forall e :: e in s.inFlight ==> EntryOk(s, e))
    && (forall id :: id in s.analysers ==> AnalyserOk(s, s.analysers[id]))
  }

  lemma TruthfulLater(feeds: seq<set<string>>, more: seq<set<string>>, domain: string, queries: seq<Read>, since: nat)
    requires feeds <= more && Truthful(feeds, domain, queries, since)
    ensures Truthful(more, domain, queries, since)
  {
    forall i | 0 <= i < |queries|
      ensures TrueRead(more, domain, queries, since, i)
    {
      assert TrueRead(feeds, domain, queries, since, i);
    }
  }

  lemma TruthfulSince(feeds: seq<set<string>>, domain: string, queries: seq<Read>, since: nat, earlier: nat)
    requires earlier <= since && Truthful(feeds, domain, queries, since)
    ensures Truthful(feeds, domain, queries, earlier)
  {
    forall i | 0 <= i < |queries|
      ensures TrueRead(feeds, domain, queries, earlier, i)
    {
      assert TrueRead(feeds, domain, queries, since, i);
    }
  }

  /** The clock, and a possible bump, leave what was true of entries and analysers true. */
  lemma OkLater(s: State, later: State)
    requires Inv(s) && s.feeds <= later.feeds && s.bumps <= later.bumps
    requires forall r :: |s.bumps| <= r < |later.bumps| ==> later.bumps[r] >= |s.feeds|
    ensures forall e :: EntryOk(s, e) ==> EntryOk(later, e)
    ensures forall a :: AnalyserOk(s, a) ==> AnalyserOk(later, a)
  {
    forall e | EntryOk(s, e)
      ensures EntryOk(later, e)
    {
      if e.current {
        TruthfulLater(s.feeds, later.feeds, e.domain, e.queries, s.bumps[e.revision]);
      }
    }
    forall a | AnalyserOk(s, a)
      ensures AnalyserOk(later, a)
    {
      AnalyserLater(s, later, a);
    }
  }

  lemma AnalyserLater(s: State, later: State, a: Analyser)
    requires AnalyserOk(s, a) && s.feeds <= later.feeds && s.bumps <= later.bumps
    requires forall r :: |s.bumps| <= r < |later.bumps| ==> later.bumps[r] >= |s.feeds|
    ensures AnalyserOk(later, a)
  {
    TruthfulLater(s.feeds, later.feeds, a.domain, a.queries, Since(s, a));
    if a.phase.Cached? {
      TruthfulLater(s.feeds, later.feeds, a.domain, a.phase.entry.queries, s.bumps[a.revision]);
    }
  }

  /** The cache read hands over an entry whose reads are recent enough for the revision just read. */
  lemma CacheHitOk(s: State, a: Analyser, entry: Entry)
    requires Inv(s) && AnalyserOk(s, a) && a.phase.Started? && entry.domain == a.domain && EntryOk(s, entry)
    requires Accepts(entry, a.revision)
    ensures AnalyserOk(s, a.(phase := Cached(entry), hit := true))
  {
    if a.revision == 0 {
      TruthfulSince(s.feeds, a.domain, entry.queries, s.bumps[entry.revision], 0);
    }
  }

  /** The read that a feed query made at the next tick of the clock. */
  function NextQuery(s: State, a: Analyser): Read
    requires |s.feeds| > 0 && |a.queries| < |Candidates(a.domain)|
  {
    var candidate := Candidates(a.domain)[|a.queries|];
    Read(candidate, s.Now(), candidate in s.Feed())
  }

  lemma FeedReadOk(s: State, a: Analyser, later: State)
    requires AnalyserOk(s, a) && !a.hit && !Found(a.queries) && |a.queries| < |Candidates(a.domain)|
    requires |s.feeds| > 0 && later.feeds == s.feeds + [s.Feed()] && later.bumps == s.bumps
    ensures Truthful(later.feeds, a.domain, a.queries + [NextQuery(s, a)], a.at)
    ensures StampOk(later, a.revision, a.at, a.read)
  {
    OneMoreRead(s.feeds, a.domain, a.queries, a.at, NextQuery(s, a));
  }

  lemma OneMoreRead(feeds: seq<set<string>>, domain: string, queries: seq<Read>, since: nat, next: Read)
    requires Truthful(feeds, domain, queries, since) && !Found(queries) && since <= |feeds| && |feeds| > 0
    requires |queries| < |Candidates(domain)| && next.at == |feeds| && next.candidate == Candidates(domain)[|queries|]
    requires next.present <==> next.candidate in feeds[|feeds| - 1]
    ensures Truthful(feeds + [feeds[|feeds| - 1]], domain, queries + [next], since)
  {
    var later, more := feeds + [feeds[|feeds| - 1]], queries + [next];
    forall i | 0 <= i < |more|
      ensures TrueRead(later, domain, more, since, i)
    {
      if i < |queries| {
        assert TrueRead(feeds, domain, queries, since, i);
      }
    }
  }

  lemma MatchStaysMalicious(domain: string, x: Inputs)
    ensures Finished(x, FeedMatch(domain)).verdict == Malicious
  {
  }

  lemma DecisionOk(s: State, a: Analyser, c: Config, signs: Signals, x: Inputs)
    requires AnalyserOk(s, a) && (a.phase.Blind? || (a.phase.Looking? && Exhausted(a)))
    ensures AnalyserOk(s, a.(phase := Ready(Decided(a, c, signs, x))))
  {
    MatchStaysMalicious(a.domain, x);
  }

  lemma ServiceOk(s: State, a: Analyser, osint: Osint)
    requires AnalyserOk(s, a) && a.phase.Cached?
    ensures var entry := a.phase.entry;
      AnalyserOk(s, a.(phase := Ready(WithOSINT(osint, entry.result)), queries := entry.queries, seen := entry.seen))
  {
  }

  lemma CacheReadOk(s: State, id: nat)
    requires Inv(s) && Enabled(s, ReadCache(id))
    ensures AnalyserOk(s, Effect(s, ReadCache(id)).analysers[id])
  {
    var a := s.analysers[id];
    if a.domain in s.cache && Accepts(s.cache[a.domain], a.revision) {
      CacheHitOk(s, a, s.cache[a.domain]);
    } else {
      LookOk(s, a);
    }
  }

  lemma LookOk(s: State, a: Analyser)
    requires AnalyserOk(s, a) && a.phase.Started?
    ensures AnalyserOk(s, a.(phase := Looking))
  {
  }

  lemma BlindOk(s: State, a: Analyser)
    requires AnalyserOk(s, a) && a.phase.Looking? && !Found(a.queries)
    ensures AnalyserOk(s, a.(seen := false, phase := Blind))
  {
  }

  lemma ReturnOk(s: State, a: Analyser)
    requires AnalyserOk(s, a) && a.phase.Ready?
    ensures AnalyserOk(s, a.(phase := Returned(a.phase.result)))
  {
  }

  /** The analyser a step moves, if any. */
  function Mover(step: Step): Option<nat> {
    match step
    case Begin(id, _) => Some(id)
    case BeginBlind(id, _) => Some(id)
    case ReadCache(id) => Some(id)
    case ReadCacheFails(id) => Some(id)
    case ReadFeed(id) => Some(id)
    case ReadFeedFails(id) => Some(id)
    case Decide(id, _, _, _) => Some(id)
    case Serve(id, _) => Some(id)
    case Return(id) => Some(id)
    case _ => None
  }

  lemma OthersStay(s: State, step: Step)
    requires Enabled(s, step)
    ensures Mover(step).None? ==> Effect(s, step).analysers == s.analysers
    ensures Mover(step).Some? ==> Mover(step).value in Effect(s, step).analysers
    ensures Mover(step).Some? ==> Effect(s, step).analysers ==
                                  s.analysers[Mover(step).value := Effect(s, step).analysers[Mover(step).value]]
  {
  }

  /** A step that moves an existing analyser without reading the feed leaves it in order, by the same clock. */
  lemma MovedInPlace(s: State, step: Step, id: nat)
    requires Inv(s) && Enabled(s, step) && id in s.analysers && Mover(step) == Some(id) && !step.ReadFeed?
    ensures id in Effect(s, step).analysers && AnalyserOk(s, Effect(s, step).analysers[id])
  {
    var a := s.analysers[id];
    if step.ReadCacheFails? {
      LookOk(s, a);
    } else if step.ReadFeedFails? {
      BlindOk(s, a);
    } else if step.Return? {
      ReturnOk(s, a);
    } else if step.ReadCache? {
      CacheReadOk(s, id);
    } else if step.Decide? {
      DecisionOk(s, a, step.c, step.signs, step.x);
    } else if step.Serve? {
      ServiceOk(s, a, step.osint);
    }
  }

  lemma NewcomerOk(s: State, step: Step, id: nat)
    requires Inv(s) && Enabled(s, step) && (step.Begin? || step.BeginBlind?) && step.id == id
    ensures id in Effect(s, step).analysers && AnalyserOk(Apply(s, step), Effect(s, step).analysers[id])
  {
  }

  lemma ReaderOk(s: State, id: nat)
    requires Inv(s) && Enabled(s, ReadFeed(id))
    ensures AnalyserOk(Apply(s, ReadFeed(id)), Effect(s, ReadFeed(id)).analysers[id])
  {
    assert AnalyserOk(s, s.analysers[id]);
    FeedReadOk(s, s.analysers[id], Apply(s, ReadFeed(id)));
  }

  /** Whichever analyser a step moves is in order afterwards, and so are the others. */
  lemma AnalysersOk(s: State, step: Step, id: nat)
    requires Inv(s) && Enabled(s, step) && id in Apply(s, step).analysers
    ensures AnalyserOk(Apply(s, step), Apply(s, step).analysers[id])
  {
    OthersStay(s, step);
    if Mover(step) != Some(id) {
      AnalyserLater(s, Apply(s, step), s.analysers[id]);
    } else if step.ReadFeed? {
      ReaderOk(s, id);
    } else if id in s.analysers {
      MovedInPlace(s, step, id);
      AnalyserLater(s, Apply(s, step), Effect(s, step).analysers[id]);
    } else {
      NewcomerOk(s, step, id);
    }
  }

  lemma SendOk(s: State, a: Analyser)
    requires AnalyserOk(s, a) && a.phase.Ready?
    ensures EntryOk(s, EntryOf(a))
  {
    TruthfulSince(s.feeds, a.domain, a.queries, Since(s, a), s.bumps[a.revision]);
  }

  /** The entries of the cache and on their way to it. */
  lemma EntriesOk(s: State, step: Step)
    requires Inv(s) && Enabled(s, step)
    ensures forall d :: d in Apply(s, step).cache ==>
              Apply(s, step).cache[d].domain == d && EntryOk(s, Apply(s, step).cache[d])
    ensures forall e :: e in Apply(s, step).inFlight ==> EntryOk(s, e)
  {
    if step.Send? {
      SendOk(s, s.analysers[step.id]);
    }
  }

  lemma StepKeepsInv(s: State, step: Step)
    requires Inv(s) && Enabled(s, step)
    ensures Inv(Apply(s, step))
  {
    var later := Apply(s, step);
    EntriesOk(s, step);
    OkLater(s, later);
    forall id | id in later.analysers
      ensures AnalyserOk(later, later.analysers[id])
    {
      AnalysersOk(s, step, id);
    }
  }

  lemma {:induction false} InvAlways(s: State, steps: seq<Step>)
    requires Inv(s) && Possible(s, steps)
    ensures Inv(After(s, steps))
    ensures s.feeds <= After(s, steps).feeds && s.bumps <= After(s, steps).bumps
    decreases |steps|
  {
    if |steps| > 0 {
      StepKeepsInv(s, steps[0]);
      InvAlways(Apply(s, steps[0]), steps[1..]);
    }
  }

  /** Label safety, in every interleaving and with any read failing: the feed reads behind a cached entry were all
      made after the revision in its label was reached, and tell what the feed held at those times. */
  lemma LabelsAreSafe(s: State, steps: seq<Step>, domain: string)
    requires Initial(s) && Possible(s, steps)
    requires domain in After(s, steps).cache && After(s, steps).cache[domain].current
    ensures var t, e := After(s, steps), After(s, steps).cache[domain];
      && e.revision < |t.bumps|
      && forall i :: 0 <= i < |e.queries| ==>
           && t.bumps[e.revision] <= e.queries[i].at < |t.feeds|
           && (e.queries[i].present <==> e.queries[i].candidate in t.feeds[e.queries[i].at])
  {
    InvAlways(s, steps);
    var t, e := After(s, steps), After(s, steps).cache[domain];
    assert EntryOk(t, e);
    forall i | 0 <= i < |e.queries|
      ensures t.bumps[e.revision] <= e.queries[i].at < |t.feeds|
      ensures e.queries[i].present <==> e.queries[i].candidate in t.feeds[e.queries[i].at]
    {
      assert TrueRead(t.feeds, domain, e.queries, t.bumps[e.revision], i);
    }
  }

  /** So a late write is never served to an analysis that has read a newer revision: what an analysis takes from
      the cache rests on reads made after the revision it read was reached. */
  lemma HitsAreSafe(s: State, steps: seq<Step>, id: nat)
    requires Initial(s) && Possible(s, steps)
    requires id in After(s, steps).analysers && After(s, steps).analysers[id].phase.Cached?
    ensures var t, a := After(s, steps), After(s, steps).analysers[id];
      && a.revision < |t.bumps|
      && forall i :: 0 <= i < |a.phase.entry.queries| ==> t.bumps[a.revision] <= a.phase.entry.queries[i].at
  {
    InvAlways(s, steps);
    var t, a := After(s, steps), After(s, steps).analysers[id];
    forall i | 0 <= i < |a.phase.entry.queries|
      ensures t.bumps[a.revision] <= a.phase.entry.queries[i].at
    {
      assert TrueRead(t.feeds, a.domain, a.phase.entry.queries, t.bumps[a.revision], i);
    }
  }

  // ---- When a verdict reports what is listed ----

  /** With complete, truthful reads from time since on, and a listed suffix all that time, the verdict is MALICIOUS. */
  lemma ListedIsMalicious(feeds: seq<set<string>>, domain: string, result: Result, queries: seq<Read>, since: nat,
                          listed: string)
    requires Truthful(feeds, domain, queries, since) && Explained(domain, result, queries)
    requires listed != "" && IsLabelSuffix(domain, listed)
    requires forall t :: since <= t < |feeds| ==> listed in feeds[t]
    ensures result.verdict == Malicious
  {
    CandidatesExact(domain, listed);
    var i :| 0 <= i < |Candidates(domain)| && Candidates(domain)[i] == listed;
    if i < |queries| {
      assert TrueRead(feeds, domain, queries, since, i);
      assert listed in feeds[queries[i].at];
    }
  }

  /** Every feed query behind the result succeeded, and for a cache hit the read of the revision too. */
  predicate Sighted(a: Analyser) {
    a.seen && (a.hit ==> a.read)
  }

  /** An analysis with a sighted result, begun at the given time or later; for a hit that is the time of a bump. */
  ghost predicate ReturnedSince(t: State, id: nat, at: nat) {
    && id in t.analysers && t.analysers[id].phase.Returned? && Sighted(t.analysers[id])
    && at <= t.analysers[id].at && (t.analysers[id].hit ==> at in t.bumps)
  }

  lemma BumpsInOrder(s: State, q: nat, r: nat)
    requires Inv(s) && q <= r < |s.bumps|
    ensures s.bumps[q] <= s.bumps[r]
  {
  }

  /** An analysis that began after the revision became r has read a revision of at least r. */
  lemma BeganAfter(s: State, a: Analyser, r: nat)
    requires Inv(s) && AnalyserOk(s, a) && a.read && r < |s.bumps| && s.bumps[r] <= a.at
    ensures r <= a.revision && s.bumps[r] <= s.bumps[a.revision]
  {
    BumpsInOrder(s, if a.revision < r then a.revision + 1 else r, r);
    BumpsInOrder(s, if a.revision < r then a.revision else r, a.revision);
  }

  /** All its feed queries were made since then. */
  lemma ReadsSince(t: State, id: nat, at: nat)
    requires Inv(t) && ReturnedSince(t, id, at)
    ensures var a := t.analysers[id];
      Truthful(t.feeds, a.domain, a.queries, at) && Explained(a.domain, a.phase.result, a.queries)
  {
    var a := t.analysers[id];
    assert AnalyserOk(t, a);
    if a.hit {
      var r :| 0 <= r < |t.bumps| && t.bumps[r] == at;
      BeganAfter(t, a, r);
    }
    TruthfulSince(t.feeds, a.domain, a.queries, Since(t, a), at);
  }

  /** For any mix of adding and replacing syncs, and whatever reads of other analyses fail: a domain with a label
      suffix that is listed from then on is reported. */
  lemma ListedSinceIsReported(s: State, steps: seq<Step>, t: State, id: nat, at: nat, listed: string)
    requires Initial(s) && Possible(s, steps) && t == After(s, steps) && ReturnedSince(t, id, at)
    requires listed != "" && IsLabelSuffix(t.analysers[id].domain, listed)
    requires forall time :: at <= time < |t.feeds| ==> listed in t.feeds[time]
    ensures t.analysers[id].phase.result.verdict == Malicious
  {
    InvAlways(s, steps);
    ReadsSince(t, id, at);
    var a := t.analysers[id];
    ListedIsMalicious(t.feeds, a.domain, a.phase.result, a.queries, at, listed);
  }

  lemma FoundWasListed(feeds: seq<set<string>>, domain: string, queries: seq<Read>, since: nat)
    requires Truthful(feeds, domain, queries, since) && Found(queries)
    ensures since <= queries[|queries| - 1].at < |feeds| && Listed(feeds[queries[|queries| - 1].at], domain)
  {
    var last := |queries| - 1;
    assert TrueRead(feeds, domain, queries, since, last);
    CandidatesExact(domain, queries[last].candidate);
  }

  /** And the result for a domain with no label suffix listed from then on rests on no feed match. */
  lemma UnlistedSinceIsUnmatched(s: State, steps: seq<Step>, t: State, id: nat, at: nat)
    requires Initial(s) && Possible(s, steps) && t == After(s, steps) && ReturnedSince(t, id, at)
    requires forall time :: at <= time < |t.feeds| ==> !Listed(t.feeds[time], t.analysers[id].domain)
    ensures !Found(t.analysers[id].queries)
  {
    InvAlways(s, steps);
    ReadsSince(t, id, at);
    var a := t.analysers[id];
    if Found(a.queries) {
      FoundWasListed(t.feeds, a.domain, a.queries, at);
    }
  }

  // ---- Additive syncs ----

  predicate Additive(step: Step) {
    !step.Replace?
  }

  /** A run of analyses and adding syncs. */
  ghost predicate Run(s: State, steps: seq<Step>) {
    Initial(s) && Possible(s, steps) && forall i :: 0 <= i < |steps| ==> Additive(steps[i])
  }

  /** A failed read of the revision, or of the feed, by an analysis of the given domain. */
  predicate FailsOn(s: State, step: Step, domain: string) {
    match step
    case BeginBlind(_, d) => d == domain
    case ReadFeedFails(id) => id in s.analysers && s.analysers[id].domain == domain
    case _ => false
  }

  ghost predicate NeverFailsOn(s: State, steps: seq<Step>, domain: string)
    requires Possible(s, steps)
    decreases |steps|
  {
    |steps| == 0 || (!FailsOn(s, steps[0], domain) && NeverFailsOn(Apply(s, steps[0]), steps[1..], domain))
  }

  ghost predicate Growing(s: State) {
    && (forall q, r :: 0 <= q <= r < |s.feeds| ==> s.feeds[q] <= s.feeds[r])
    && (forall id :: id in s.syncs ==>
         match s.syncs[id]
         case Filling(wrote, _, _) => |s.feeds| > 0 && wrote <= s.Feed()
         case Bumped(wrote, at) => at < |s.feeds| && wrote <= s.feeds[at])
  }

  /** No failed read lies behind anything concerning the domain. */
  ghost predicate AllSighted(s: State, domain: string) {
    && (forall id :: id in s.analysers && s.analysers[id].domain == domain ==>
         s.analysers[id].read && s.analysers[id].seen &&
         (s.analysers[id].phase.Cached? ==> s.analysers[id].phase.entry.seen))
    && (domain in s.cache && s.cache[domain].current ==> s.cache[domain].seen)
    && (forall e :: e in s.inFlight && e.domain == domain ==> e.seen)
  }

  lemma StepKeepsGrowing(s: State, step: Step)
    requires Inv(s) && Growing(s) && Enabled(s, step) && Additive(step)
    ensures Growing(Apply(s, step))
  {
    var later := Apply(s, step);
    forall q, r | 0 <= q <= r < |later.feeds|
      ensures later.feeds[q] <= later.feeds[r]
    {
      if r == |s.feeds| && q < r {
        assert s.feeds[q] <= s.feeds[|s.feeds| - 1];
      }
    }
    assert later.Feed() >= s.Feed();
    forall id | id in later.syncs
      ensures match later.syncs[id]
              case Filling(wrote, _, _) => wrote <= later.Feed()
              case Bumped(wrote, at) => at < |later.feeds| && wrote <= later.feeds[at]
    {
      if id in s.syncs {
        assert s.syncs[id].Filling? ==> s.syncs[id].wrote <= s.Feed();
        assert s.syncs[id].Bumped? ==> s.syncs[id].wrote <= s.feeds[s.syncs[id].at];
      }
    }
  }

  lemma AnalyserKeptSighted(s: State, step: Step, domain: string, id: nat)
    requires Inv(s) && AllSighted(s, domain) && Enabled(s, step) && !FailsOn(s, step, domain)
    requires id in Apply(s, step).analysers && Apply(s, step).analysers[id].domain == domain
    ensures var a := Apply(s, step).analysers[id];
      a.read && a.seen && (a.phase.Cached? ==> a.phase.entry.seen)
  {
    OthersStay(s, step);
    if id in s.analysers {
      assert AnalyserOk(s, s.analysers[id]);
    }
  }

  lemma StepKeepsSighted(s: State, step: Step, domain: string)
    requires Inv(s) && AllSighted(s, domain) && Enabled(s, step) && !FailsOn(s, step, domain)
    ensures AllSighted(Apply(s, step), domain)
  {
    forall id | id in Apply(s, step).analysers && Apply(s, step).analysers[id].domain == domain
      ensures var a := Apply(s, step).analysers[id];
        a.read && a.seen && (a.phase.Cached? ==> a.phase.entry.seen)
    {
      AnalyserKeptSighted(s, step, domain, id);
    }
  }

  lemma {:induction false} AlwaysGrowing(s: State, steps: seq<Step>)
    requires Inv(s) && Growing(s) && Possible(s, steps)
    requires forall i :: 0 <= i < |steps| ==> Additive(steps[i])
    ensures Growing(After(s, steps))
    decreases |steps|
  {
    if |steps| > 0 {
      StepKeepsInv(s, steps[0]);
      StepKeepsGrowing(s, steps[0]);
      AlwaysGrowing(Apply(s, steps[0]), steps[1..]);
    }
  }

  lemma {:induction false} AlwaysSighted(s: State, steps: seq<Step>, domain: string)
    requires Inv(s) && AllSighted(s, domain) && Possible(s, steps) && NeverFailsOn(s, steps, domain)
    ensures AllSighted(After(s, steps), domain)
    decreases |steps|
  {
    if |steps| > 0 {
      StepKeepsInv(s, steps[0]);
      StepKeepsSighted(s, steps[0], domain);
      AlwaysSighted(Apply(s, steps[0]), steps[1..], domain);
    }
  }

  lemma InitialOk(s: State, domain: string)
    requires Initial(s)
    ensures Inv(s) && Growing(s) && AllSighted(s, domain) && BumpsRecorded(s)
  {
  }

  ghost predicate ListedWhenBumped(t: State, domain: string, at: nat, listed: string) {
    at in t.bumps && at < |t.feeds| && listed in t.feeds[at] && listed != "" && IsLabelSuffix(domain, listed)
  }

  /** Freshness, with adding syncs and whatever other reads fail: once the revision has been bumped at some time, no
      analysis that begins later and has a sighted result returns anything but MALICIOUS for a domain equal to or
      under a domain that was in the feed then. For a cache miss the read of the revision may have failed. */
  lemma SightedIsFresh(s: State, steps: seq<Step>, t: State, id: nat, at: nat, listed: string)
    requires Run(s, steps) && t == After(s, steps) && ReturnedSince(t, id, at)
    requires ListedWhenBumped(t, t.analysers[id].domain, at, listed)
    ensures t.analysers[id].phase.result.verdict == Malicious
  {
    InitialOk(s, "");
    AlwaysGrowing(s, steps);
    forall time | at <= time < |t.feeds|
      ensures listed in t.feeds[time]
    {
      assert t.feeds[at] <= t.feeds[time];
    }
    ListedSinceIsReported(s, steps, t, id, at, listed);
  }

  /** In runs where no analysis of this domain has a read fail, that is every analysis of it. */
  lemma NoStaleVerdict(s: State, steps: seq<Step>, t: State, id: nat, at: nat, listed: string)
    requires Run(s, steps) && t == After(s, steps)
    requires id in t.analysers && t.analysers[id].phase.Returned? && at <= t.analysers[id].at
    requires NeverFailsOn(s, steps, t.analysers[id].domain)
    requires ListedWhenBumped(t, t.analysers[id].domain, at, listed)
    ensures t.analysers[id].phase.result.verdict == Malicious
  {
    InitialOk(s, t.analysers[id].domain);
    AlwaysSighted(s, steps, t.analysers[id].domain);
    SightedIsFresh(s, steps, t, id, at, listed);
  }

  /** In terms of one sync: after its bump, every later analysis with a sighted result reports what it wrote. */
  lemma SyncedIsReported(s: State, steps: seq<Step>, t: State, id: nat, sync: nat, listed: string)
    requires Run(s, steps) && t == After(s, steps)
    requires id in t.analysers && t.analysers[id].phase.Returned? && Sighted(t.analysers[id])
    requires sync in t.syncs && t.syncs[sync].Bumped? && t.syncs[sync].at <= t.analysers[id].at
    requires listed in t.syncs[sync].wrote && listed != "" && IsLabelSuffix(t.analysers[id].domain, listed)
    ensures t.analysers[id].phase.result.verdict == Malicious
  {
    WroteWasListed(s, steps, t, sync);
    SightedIsFresh(s, steps, t, id, t.syncs[sync].at, listed);
  }

  lemma WroteWasListed(s: State, steps: seq<Step>, t: State, sync: nat)
    requires Run(s, steps) && t == After(s, steps)
    requires sync in t.syncs && t.syncs[sync].Bumped?
    ensures t.syncs[sync].at in t.bumps && t.syncs[sync].at < |t.feeds|
    ensures t.syncs[sync].wrote <= t.feeds[t.syncs[sync].at]
  {
    InitialOk(s, "");
    AlwaysGrowing(s, steps);
    BumpsAlwaysRecorded(s, steps);
  }

  ghost predicate BumpsRecorded(s: State) {
    forall id :: id in s.syncs && s.syncs[id].Bumped? ==> s.syncs[id].at in s.bumps
  }

  lemma {:induction false} BumpsAlwaysRecorded(s: State, steps: seq<Step>)
    requires BumpsRecorded(s) && Possible(s, steps)
    ensures BumpsRecorded(After(s, steps))
    decreases |steps|
  {
    if |steps| > 0 {
      BumpsAlwaysRecorded(Apply(s, steps[0]), steps[1..]);
    }
  }

  // ---- The feed lookup itself ----

  /** The domain, or a parent domain, is listed. */
  ghost predicate Listed(feed: set<string>, domain: string) {
    exists listed :: listed in feed && listed != "" && IsLabelSuffix(domain, listed)
  }

  lemma ListedExactly(feed: set<string>, domain: string)
    ensures Listed(feed, domain) <==> exists i :: 0 <= i < |Candidates(domain)| && Candidates(domain)[i] in feed
  {
    if Listed(feed, domain) {
      var listed :| listed in feed && listed != "" && IsLabelSuffix(domain, listed);
      CandidatesExact(domain, listed);
    }
    forall i | 0 <= i < |Candidates(domain)| && Candidates(domain)[i] in feed
      ensures Listed(feed, domain)
    {
      CandidatesExact(domain, Candidates(domain)[i]);
    }
  }

  /** matchThreatFeed against a feed set that holds still. */
  method MatchThreatFeed(feed: set<string>, domain: string) returns (matched: bool)
    ensures matched <==> Listed(feed, domain)
  {
    var candidates := ThreatFeedCandidates(domain);
    ListedExactly(feed, domain);
    for i := 0 to |candidates|
      invariant forall k :: 0 <= k < i ==> candidates[k] !in feed
    {
      if candidates[i] in feed {
        return true;
      }
    }
    return false;
  }

  // ---- Which reads must succeed ----

  lemma {:induction false} OneMore(s: State, steps: seq<Step>, step: Step)
    requires Possible(s, steps) && Enabled(After(s, steps), step)
    ensures Possible(s, steps + [step]) && After(s, steps + [step]) == Apply(After(s, steps), step)
    decreases |steps|
  {
    if |steps| == 0 {
      assert steps + [step] == [step];
      assert [step][1..] == [];
    } else {
      assert (steps + [step])[1..] == steps[1..] + [step];
      OneMore(Apply(s, steps[0]), steps[1..], step);
    }
  }

  /** Some run of analyses and adding syncs leads there. */
  ghost predicate Reached(t: State) {
    exists s, steps :: Run(s, steps) && After(s, steps) == t
  }

  lemma Then(u: State, step: Step)
    requires Reached(u) && Enabled(u, step) && Additive(step)
    ensures Reached(Apply(u, step))
  {
    var s, steps :| Run(s, steps) && After(s, steps) == u;
    OneMore(s, steps, step);
    assert Run(s, steps + [step]);
  }

  lemma BlankReached()
    ensures Reached(Blank())
  {
    assert Run(Blank(), []) && After(Blank(), []) == Blank();
  }

  /** u's history is a prefix of v's. */
  ghost predicate Continues(u: State, v: State) {
    u.feeds <= v.feeds && u.bumps <= v.bumps
  }

  const NO_INPUTS := Inputs(None, None, Osint(false, false))

  const NO_SIGNS := Signals(false, false, false, false, false, 0, false, None, false, "uncategorized")

  /** Nothing listed, nothing cached, no revision yet. */
  function Blank(): State {
    State([{}], [0], map[], {}, map[], map[])
  }

  /** What one command does that moves one analyser and leaves everything else but the clock alone. */
  function Moved(u: State, id: nat, a: Analyser): State
    requires |u.feeds| > 0
  {
    u.(analysers := u.analysers[id := a], feeds := u.feeds + [u.Feed()])
  }

  /** From u to v only the clock has moved, and one analyser, which is now a. */
  ghost predicate Follows(u: State, v: State, id: nat, a: Analyser) {
    && u.feeds <= v.feeds && |v.feeds| > 0 && |u.feeds| > 0 && v.Feed() == u.Feed() && v.bumps == u.bumps
    && v.analysers == u.analysers[id := a]
    && v.cache == u.cache && v.inFlight == u.inFlight && v.syncs == u.syncs
  }

  lemma FollowsOnce(u: State, id: nat, a: Analyser)
    requires |u.feeds| > 0
    ensures Follows(u, Moved(u, id, a), id, a)
  {
  }

  lemma FollowsOn(u: State, v: State, id: nat, a: Analyser, b: Analyser)
    requires Follows(u, v, id, a)
    ensures Follows(u, Moved(v, id, b), id, b)
  {
    assert v.analysers[id := b] == u.analysers[id := b];
  }

  lemma BeginEffect(u: State, id: nat, domain: string, read: bool)
    requires |u.feeds| > 0 && |u.bumps| > 0 && id !in u.analysers && domain != ""
    ensures Enabled(u, Starting(id, domain, read)) && Additive(Starting(id, domain, read))
    ensures Apply(u, Starting(id, domain, read)) == Moved(u, id, Begun(u, domain, read))
  {
  }

  lemma MissEffect(u: State, id: nat)
    requires |u.feeds| > 0 && |u.bumps| > 0 && In(u, id, Started) && u.analysers[id].domain !in u.cache
    ensures Enabled(u, ReadCache(id)) && Apply(u, ReadCache(id)) == Moved(u, id, u.analysers[id].(phase := Looking))
  {
  }

  lemma HitEffect(u: State, id: nat)
    requires |u.feeds| > 0 && |u.bumps| > 0 && In(u, id, Started) && u.analysers[id].domain in u.cache
    requires Accepts(u.cache[u.analysers[id].domain], u.analysers[id].revision)
    ensures Enabled(u, ReadCache(id))
    ensures var a := u.analysers[id];
      Apply(u, ReadCache(id)) == Moved(u, id, a.(phase := Cached(u.cache[a.domain]), hit := true))
  {
  }

  lemma ServeEffect(u: State, id: nat)
    requires |u.feeds| > 0 && |u.bumps| > 0 && id in u.analysers && u.analysers[id].phase.Cached?
    ensures Enabled(u, Serve(id, Osint(false, false)))
    ensures var a := u.analysers[id];
      var e := a.phase.entry;
      Apply(u, Serve(id, Osint(false, false))) ==
      Moved(u, id, a.(queries := e.queries, seen := e.seen, phase := Ready(e.result)))
  {
  }

  lemma BlindEffect(u: State, id: nat)
    requires |u.feeds| > 0 && |u.bumps| > 0 && In(u, id, Looking)
    requires u.analysers[id].queries == [] && u.analysers[id].domain != ""
    ensures Enabled(u, ReadFeedFails(id))
    ensures Apply(u, ReadFeedFails(id)) == Moved(u, id, u.analysers[id].(seen := false, phase := Blind))
  {
    CandidatesExact(u.analysers[id].domain, u.analysers[id].domain);
    assert u.analysers[id].domain in Candidates(u.analysers[id].domain);
  }

  lemma LexicalEffect(u: State, id: nat, c: Config, signs: Signals)
    requires |u.feeds| > 0 && |u.bumps| > 0 && id in u.analysers && !Found(u.analysers[id].queries)
    requires u.analysers[id].phase.Blind? || (u.analysers[id].phase.Looking? && Exhausted(u.analysers[id]))
    ensures Enabled(u, Decide(id, c, signs, NO_INPUTS))
    ensures var a := u.analysers[id];
      Apply(u, Decide(id, c, signs, NO_INPUTS)) == Moved(u, id, a.(phase := Ready(Lexical(c, a.domain, signs))))
  {
  }

  lemma ReturnEffect(u: State, id: nat)
    requires |u.feeds| > 0 && |u.bumps| > 0 && id in u.analysers && u.analysers[id].phase.Ready?
    ensures Enabled(u, Return(id))
    ensures Apply(u, Return(id)) == Moved(u, id, u.analysers[id].(phase := Returned(u.analysers[id].phase.result)))
  {
  }

  lemma CacheEffect(u: State, id: nat)
    requires |u.feeds| > 0 && |u.bumps| > 0 && id in u.analysers && u.analysers[id].phase.Ready?
    ensures var entry := EntryOf(u.analysers[id]);
      && Enabled(u, Send(id))
      && Apply(u, Send(id)) == u.(inFlight := u.inFlight + {entry}, feeds := u.feeds + [u.Feed()])
  {
  }

  lemma LandEffect(u: State, entry: Entry)
    requires |u.feeds| > 0 && |u.bumps| > 0 && entry in u.inFlight
    ensures Enabled(u, Land(entry))
    ensures Apply(u, Land(entry)) == u.(cache := u.cache[entry.domain := entry], inFlight := u.inFlight - {entry},
                                        feeds := u.feeds + [u.Feed()])
  {
  }

  lemma AddEffect(u: State, domain: string)
    requires |u.feeds| > 0 && |u.bumps| > 0 && u.syncs == map[] && domain !in u.Feed()
    ensures Enabled(u, Add(0, {domain}))
    ensures Apply(u, Add(0, {domain})) ==
            u.(syncs := map[0 := Filling({domain}, 1, false)], feeds := u.feeds + [u.Feed() + {domain}])
  {
    assert {domain} - u.Feed() == {domain};
  }

  lemma BumpEffect(u: State, wrote: set<string>)
    requires |u.feeds| > 0 && |u.bumps| > 0 && u.syncs == map[0 := Filling(wrote, 1, false)]
    ensures Enabled(u, Bump(0))
    ensures Apply(u, Bump(0)) == u.(syncs := map[0 := Bumped(wrote, u.Now())], bumps := u.bumps + [u.Now()],
                                    feeds := u.feeds + [u.Feed()])
  {
  }

  /** A state with a clock and a revision, as every reached one is. */
  ghost predicate Going(u: State) {
    Reached(u) && |u.feeds| > 0 && |u.bumps| > 0
  }

  /** A sync writes a domain that is new to the feed, and announces it. */
  lemma SyncAdds(u: State, domain: string) returns (v: State, at: nat)
    requires Going(u) && u.syncs == map[] && domain !in u.Feed()
    ensures Going(v) && Continues(u, v) && v.bumps == u.bumps + [at] && at < |v.feeds| && domain in v.feeds[at]
    ensures v.analysers == u.analysers && v.cache == u.cache && v.inFlight == u.inFlight
  {
    AddEffect(u, domain);
    Then(u, Add(0, {domain}));
    var w := Apply(u, Add(0, {domain}));
    BumpEffect(w, {domain});
    Then(w, Bump(0));
    v, at := Apply(w, Bump(0)), w.Now();
  }

  function Starting(id: nat, domain: string, read: bool): Step {
    if read then Begin(id, domain) else BeginBlind(id, domain)
  }

  /** An analysis begins and finds nothing in the cache. */
  lemma StartAndMiss(u: State, id: nat, domain: string, read: bool) returns (v: State)
    requires Going(u) && domain != "" && id !in u.analysers && domain !in u.cache
    ensures Going(v) && Follows(u, v, id, Begun(u, domain, read).(phase := Looking))
  {
    BeginEffect(u, id, domain, read);
    Then(u, Starting(id, domain, read));
    FollowsOnce(u, id, Begun(u, domain, read));
    var w := Apply(u, Starting(id, domain, read));
    MissEffect(w, id);
    Then(w, ReadCache(id));
    v := Apply(w, ReadCache(id));
    FollowsOn(u, w, id, Begun(u, domain, read), Begun(u, domain, read).(phase := Looking));
  }

  /** Its first feed query fails, and the listed domain is taken for an unlisted one. */
  lemma FailedLookup(u: State, id: nat, domain: string, read: bool, c: Config, signs: Signals) returns (v: State)
    requires Going(u) && domain != "" && id !in u.analysers && domain !in u.cache
    ensures Going(v)
    ensures Follows(u, v, id, Begun(u, domain, read).(seen := false, phase := Ready(Lexical(c, domain, signs))))
  {
    var w := StartAndMiss(u, id, domain, read);
    var missed := Begun(u, domain, read).(phase := Looking);
    BlindEffect(w, id);
    Then(w, ReadFeedFails(id));
    var x := Apply(w, ReadFeedFails(id));
    var blind := missed.(seen := false, phase := Blind);
    FollowsOn(u, w, id, missed, blind);
    LexicalEffect(x, id, c, signs);
    Then(x, Decide(id, c, signs, NO_INPUTS));
    v := Apply(x, Decide(id, c, signs, NO_INPUTS));
    FollowsOn(u, x, id, blind, blind.(phase := Ready(Lexical(c, domain, signs))));
  }

  /** n more candidates are asked for and found absent from an empty feed. */
  lemma {:induction false} ReadsNothing(u: State, id: nat, n: nat) returns (v: State)
    requires Going(u) && id in u.analysers && u.analysers[id].phase.Looking? && u.Feed() == {}
    requires !Found(u.analysers[id].queries)
    requires |u.analysers[id].queries| + n <= |Candidates(u.analysers[id].domain)|
    ensures Going(v) && v.Feed() == {} && v.analysers.Keys == u.analysers.Keys && !Found(v.analysers[id].queries)
    ensures v.analysers[id] == u.analysers[id].(queries := v.analysers[id].queries)
    ensures |v.analysers[id].queries| == |u.analysers[id].queries| + n
    ensures v.bumps == u.bumps && v.cache == u.cache && v.inFlight == u.inFlight && v.syncs == u.syncs
    decreases n
  {
    v := u;
    if n > 0 {
      Then(u, ReadFeed(id));
      v := ReadsNothing(Apply(u, ReadFeed(id)), id, n - 1);
    }
  }

  /** The analysis of an unlisted domain with an empty feed and no revision yet, complete and successful. */
  lemma HonestLookup(domain: string, c: Config, signs: Signals) returns (v: State)
    requires domain != ""
    ensures Going(v) && v.Feed() == {} && v.bumps == [0] && v.cache == map[] && v.inFlight == {} && v.syncs == map[]
    ensures v.analysers.Keys == {1} && v.analysers[1].domain == domain && v.analysers[1].revision == 0
    ensures v.analysers[1].seen && v.analysers[1].phase == Ready(Lexical(c, domain, signs))
  {
    BlankReached();
    var w := StartAndMiss(Blank(), 1, domain, true);
    var x := ReadsNothing(w, 1, |Candidates(domain)|);
    LexicalEffect(x, 1, c, signs);
    Then(x, Decide(1, c, signs, NO_INPUTS));
    v := Apply(x, Decide(1, c, signs, NO_INPUTS));
  }

  /** A finished analysis writes its result to the cache. */
  lemma CacheIt(u: State, id: nat) returns (v: State)
    requires Going(u) && id in u.analysers && u.analysers[id].phase.Ready?
    ensures Going(v) && Continues(u, v) && v.Feed() == u.Feed()
    ensures var entry := EntryOf(u.analysers[id]); v.cache == u.cache[entry.domain := entry]
    ensures v.analysers == u.analysers && v.bumps == u.bumps && v.syncs == u.syncs
  {
    var entry := EntryOf(u.analysers[id]);
    CacheEffect(u, id);
    Then(u, Send(id));
    var w := Apply(u, Send(id));
    LandEffect(w, entry);
    Then(w, Land(entry));
    v := Apply(w, Land(entry));
  }

  /** A later analysis is served from the cache and returns. */
  lemma ServedFromCache(u: State, id: nat, domain: string, read: bool) returns (v: State)
    requires Going(u) && domain != "" && id !in u.analysers && domain in u.cache
    requires Accepts(u.cache[domain], Begun(u, domain, read).revision)
    ensures Going(v) && Continues(u, v) && v.bumps == u.bumps && id in v.analysers
    ensures var entry := u.cache[domain];
      v.analysers[id] == Begun(u, domain, read).(queries := entry.queries, seen := entry.seen, hit := true,
                                                 phase := Returned(entry.result))
  {
    var entry, begun := u.cache[domain], Begun(u, domain, read);
    BeginEffect(u, id, domain, read);
    Then(u, Starting(id, domain, read));
    var w := Apply(u, Starting(id, domain, read));
    FollowsOnce(u, id, begun);
    HitEffect(w, id);
    Then(w, ReadCache(id));
    var x := Apply(w, ReadCache(id));
    FollowsOn(u, w, id, begun, begun.(phase := Cached(entry), hit := true));
    ServedAndReturned(u, x, id, begun, entry);
    v := Apply(Apply(x, Serve(id, Osint(false, false))), Return(id));
  }

  lemma ServedAndReturned(u: State, x: State, id: nat, begun: Analyser, entry: Entry)
    requires Going(x) && Follows(u, x, id, begun.(phase := Cached(entry), hit := true))
    ensures Enabled(x, Serve(id, Osint(false, false)))
    ensures var y := Apply(x, Serve(id, Osint(false, false)));
      && Enabled(y, Return(id)) && Going(Apply(y, Return(id)))
      && Follows(u, Apply(y, Return(id)), id, begun.(queries := entry.queries, seen := entry.seen, hit := true,
                                                     phase := Returned(entry.result)))
  {
    var cached := begun.(phase := Cached(entry), hit := true);
    var served := cached.(queries := entry.queries, seen := entry.seen, phase := Ready(entry.result));
    ServeEffect(x, id);
    Then(x, Serve(id, Osint(false, false)));
    FollowsOn(u, x, id, cached, served);
    var y := Apply(x, Serve(id, Osint(false, false)));
    ReturnEffect(y, id);
    Then(y, Return(id));
    FollowsOn(u, y, id, served, served.(phase := Returned(entry.result)));
  }

  /** An analysis of the domain that began after a bump at which it was listed returns the result; the flags tell
      whether its read of the revision succeeded, every feed query behind the result did, and it was a cache hit. */
  ghost predicate Returns(t: State, domain: string, read: bool, seen: bool, hit: bool, result: Result,
                          id: nat, at: nat, listed: string)
  {
    && id in t.analysers && t.analysers[id].domain == domain && t.analysers[id].phase == Returned(result)
    && t.analysers[id].read == read && t.analysers[id].seen == seen && t.analysers[id].hit == hit
    && at <= t.analysers[id].at && ListedWhenBumped(t, domain, at, listed)
  }

  ghost predicate MayReturn(domain: string, read: bool, seen: bool, hit: bool, result: Result) {
    exists t, id, at, listed :: Reached(t) && Returns(t, domain, read, seen, hit, result, id, at, listed)
  }

  /** What was listed at the last bump of u is still known to have been so in v. */
  lemma MayReturnLater(u: State, v: State, id: nat, at: nat)
    requires Reached(v) && Continues(u, v)
    requires id in v.analysers && v.analysers[id].phase.Returned? && v.analysers[id].domain != ""
    requires |u.bumps| > 0 && u.bumps[|u.bumps| - 1] == at < |u.feeds| && v.analysers[id].domain in u.feeds[at]
    requires at <= v.analysers[id].at
    ensures var a := v.analysers[id]; MayReturn(a.domain, a.read, a.seen, a.hit, a.phase.result)
  {
    var a := v.analysers[id];
    assert v.bumps[|u.bumps| - 1] == at;
    assert Returns(v, a.domain, a.read, a.seen, a.hit, a.phase.result, id, at, a.domain);
  }

  /** After a failed feed query an analysis returns whatever lexical analysis makes of the listed domain. */
  lemma FailedReadMisses(domain: string, read: bool, c: Config, signs: Signals)
    requires domain != ""
    ensures MayReturn(domain, read, false, false, Lexical(c, domain, signs))
  {
    BlankReached();
    var u, at := SyncAdds(Blank(), domain);
    var w := FailedLookup(u, 1, domain, read, c, signs);
    ReturnEffect(w, 1);
    Then(w, Return(1));
    MayReturnLater(u, Apply(w, Return(1)), 1, at);
  }

  /** That result is cached under the new revision. */
  lemma FailedReadIsCached(domain: string, c: Config, signs: Signals) returns (u: State, v: State, at: nat)
    requires domain != ""
    ensures Going(v) && Continues(u, v) && v.bumps == u.bumps == [0, at] && at < |u.feeds| && domain in u.feeds[at]
    ensures domain in v.cache && v.cache[domain] == Entry(domain, Lexical(c, domain, signs), 1, true, [], false)
    ensures v.analysers.Keys == {1}
  {
    BlankReached();
    u, at := SyncAdds(Blank(), domain);
    var w := FailedLookup(u, 1, domain, true, c, signs);
    v := CacheIt(w, 1);
  }

  /** And so it is returned by every later analysis that is served from the cache, none of whose own reads fails. */
  lemma FailedReadPoisonsTheCache(domain: string, read: bool, c: Config, signs: Signals)
    requires domain != ""
    ensures MayReturn(domain, read, false, true, Lexical(c, domain, signs))
  {
    var u, w, at := FailedReadIsCached(domain, c, signs);
    var v := ServedFromCache(w, 2, domain, read);
    MayReturnLater(u, v, 2, at);
  }

  /** An analysis whose read of the revision fails accepts an entry written before the domain was listed, although no
      read of the feed or the cache has failed. */
  lemma FailedRevisionReadServesStale(domain: string, c: Config, signs: Signals)
    requires domain != ""
    ensures MayReturn(domain, false, true, true, Lexical(c, domain, signs))
  {
    var w := HonestLookup(domain, c, signs);
    var x := CacheIt(w, 1);
    var u, at := SyncAdds(x, domain);
    var v := ServedFromCache(u, 2, domain, false);
    MayReturnLater(u, v, 2, at);
  }

  /** A listed domain that no bump has announced is still served as it was before, to analyses begun after it was
      listed, without any failed read. */
  lemma UnannouncedIsServedStale(domain: string, c: Config, signs: Signals) returns (t: State, listedAt: nat)
    requires domain != ""
    ensures Reached(t) && listedAt < |t.feeds| && domain in t.feeds[listedAt] && t.bumps == [0]
    ensures 2 in t.analysers && t.analysers[2].domain == domain && listedAt < t.analysers[2].at
    ensures t.analysers[2].read && t.analysers[2].seen && t.analysers[2].phase == Returned(Lexical(c, domain, signs))
  {
    var w := HonestLookup(domain, c, signs);
    var x := CacheIt(w, 1);
    AddEffect(x, domain);
    Then(x, Add(0, {domain}));
    var u := Apply(x, Add(0, {domain}));
    listedAt := |x.feeds|;
    assert u.feeds[listedAt] == x.Feed() + {domain} && u.cache == x.cache && u.analysers == x.analysers;
    assert Begun(u, domain, true).revision == 0;
    t := ServedFromCache(u, 2, domain, true);
    assert t.feeds[listedAt] == u.feeds[listedAt];
  }

  ghost predicate AlwaysFresh(domain: string, read: bool, seen: bool, hit: bool) {
    forall result :: MayReturn(domain, read, seen, hit, result) ==> result.verdict == Malicious
  }

  lemma FreshWhenSighted(domain: string, read: bool, seen: bool, hit: bool)
    requires seen && (hit ==> read)
    ensures AlwaysFresh(domain, read, seen, hit)
  {
    forall result | MayReturn(domain, read, seen, hit, result)
      ensures result.verdict == Malicious
    {
      var t, id, at, listed :| Reached(t) && Returns(t, domain, read, seen, hit, result, id, at, listed);
      var s, steps :| Run(s, steps) && After(s, steps) == t;
      SightedIsFresh(s, steps, t, id, at, listed);
    }
  }

  lemma PlainIsSafe(domain: string)
    ensures Lexical(DEFAULT_CONFIG, domain, NO_SIGNS).verdict == Safe
  {
  }

  /** For every domain and each of the eight kinds of analyses: all those begun after a bump at which the domain was
      listed return MALICIOUS, in all runs of adding syncs, if and only if the feed queries behind them succeed and,
      for cache hits, their read of the revision does. */
  lemma FreshExactly(domain: string, read: bool, seen: bool, hit: bool)
    requires domain != ""
    ensures AlwaysFresh(domain, read, seen, hit) <==> seen && (hit ==> read)
  {
    PlainIsSafe(domain);
    if seen && (hit ==> read) {
      FreshWhenSighted(domain, read, seen, hit);
    } else if seen {
      FailedRevisionReadServesStale(domain, DEFAULT_CONFIG, NO_SIGNS);
    } else if hit {
      FailedReadPoisonsTheCache(domain, read, DEFAULT_CONFIG, NO_SIGNS);
    } else {
      FailedReadMisses(domain, read, DEFAULT_CONFIG, NO_SIGNS);
    }
  }
}
