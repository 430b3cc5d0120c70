/** The hybrid whitelist: a Bloom filter in front of an exact table, each replaced on its own schedule. */
module Whitelist {
  import opened Bloom
  import opened Labels
  import opened Wrappers

  /** The filter in use, by what was added to it. */
  datatype Filter = NoFilter | Built(hash: Hash, k: nat, m: nat, added: set<string>)
  {
    ghost predicate Lets(s: string) {
      Built? && m > 0 && Passes(hash, k, m, added, s)
    }
  }

  /** What one table query sees: the rows committed at that moment, or nothing when the query fails. */
  type View = Option<set<string>>

  function Suffix(domain: string, i: nat): string
    requires i < |Split(domain)|
  {
    Join(Split(domain)[i..])
  }

  ghost predicate Confirmed(filter: Filter, domain: string, views: seq<View>, i: nat)
    requires i < |Split(domain)| == |views|
  {
    var s := Suffix(domain, i);
    s != "" && filter.Lets(s) && views[i].Some? && s in views[i].value
  }

  /** The answer of IsAllowed when its i-th table query, if made, sees views[i]. */
  ghost predicate HybridAnswer(filter: Filter, domain: string, views: seq<View>)
    requires |Split(domain)| == |views|
  {
    exists i :: 0 <= i < |views| && Confirmed(filter, domain, views, i)
  }

  /** Plain suffix membership. */
  ghost predicate SuffixIn(domain: string, table: set<string>) {
    exists s :: s in table && s != "" && IsLabelSuffix(domain, s)
  }

  lemma SuffixInByIndex(domain: string, table: set<string>)
    ensures SuffixIn(domain, table) <==>
            exists n :: 0 <= n < |Split(domain)| && Suffix(domain, n) != "" && Suffix(domain, n) in table
  {
    forall n | 0 <= n < |Split(domain)| && Suffix(domain, n) != "" && Suffix(domain, n) in table
      ensures SuffixIn(domain, table)
    {
      SuffixAt(domain, n);
    }
    if SuffixIn(domain, table) {
      var s :| s in table && s != "" && IsLabelSuffix(domain, s);
      var n := SuffixIndex(domain, s);
      assert Suffix(domain, n) == s;
    }
  }

  class Whitelist {
    const hybrid: bool
    const hash: Hash
    var bloom: BloomFilter?
    var allowed: set<string>

    ghost predicate Valid()
      reads this, bloom, if bloom == null then {} else {bloom.bits}
    {
      bloom != null ==> bloom.Valid()
    }

    ghost function FilterInUse(): Filter
      reads this, bloom
    {
      if bloom == null then NoFilter else Built(bloom.hash, bloom.k, bloom.m, bloom.added)
    }

    constructor (hybrid: bool, hash: Hash)
      ensures Valid() && this.hybrid == hybrid && this.hash == hash && bloom == null && allowed == {}
    {
      this.hybrid := hybrid;
      this.hash := hash;
      bloom := null;
      allowed := {};
    }

    /** rows is what the table query returned (None: it failed); rawM and rawK are the rounded filter sizes. */
    method LoadFromDB(rows: Option<seq<string>>, rawM: nat, rawK: nat)
      requires Valid() && rawM > 0
      modifies this`bloom
      ensures Valid() && (bloom != old(bloom) ==> bloom == null || fresh(bloom))
      ensures !hybrid || rows.None? ==> bloom == old(bloom)
      ensures hybrid && rows.Some? && |rows.value| == 0 ==> FilterInUse() == NoFilter
      ensures hybrid && rows.Some? && |rows.value| > 0 ==>
                FilterInUse().Built? && FilterInUse().m > 0 && FilterInUse().added == (set d | d in rows.value)
    {
      if !hybrid || rows.None? {
        return;
      }
      var domains := rows.value;
      if |domains| == 0 {
        bloom := null;
        return;
      }
      var filter := new BloomFilter(rawM, rawK, hash);
      for i := 0 to |domains|
        invariant filter.Valid() && fresh(filter) && fresh(filter.bits)
        invariant filter.added == (set d | d in domains[..i])
        invariant bloom == old(bloom) && (bloom != null ==> unchanged(bloom) && unchanged(bloom.bits))
      {
        filter.Add(domains[i]);
        assert domains[..i + 1] == domains[..i] + [domains[i]];
      }
      assert domains[..|domains|] == domains;
      bloom := filter;
    }

    /** The file-based mode without a database. */
    method LoadFallback(domains: seq<string>)
      modifies this`allowed
      ensures allowed == set d | d in domains
    {
      allowed := {};
      for i := 0 to |domains|
        invariant allowed == set d | d in domains[..i]
      {
        allowed := allowed + {domains[i]};
        assert domains[..i + 1] == domains[..i] + [domains[i]];
      }
      assert domains[..|domains|] == domains;
    }

    method IsAllowed(domain: string, views: seq<View>) returns (ok: bool)
      requires Valid() && |views| == |Split(domain)|
      ensures !hybrid ==> (ok <==> SuffixIn(domain, allowed))
      ensures hybrid ==> (ok <==> HybridAnswer(FilterInUse(), domain, views))
    {
      var parts := Split(domain);
      for i := 0 to |parts|
        invariant !hybrid ==> forall n :: 0 <= n < i ==> Suffix(domain, n) == "" || Suffix(domain, n) !in allowed
        invariant hybrid ==> forall n :: 0 <= n < i ==> !Confirmed(FilterInUse(), domain, views, n)
      {
        var candidate := Join(parts[i..]);
        if candidate == "" {
          continue;
        }
        if !hybrid {
          if candidate in allowed {
            assert Suffix(domain, i) in allowed;
            SuffixInByIndex(domain, allowed);
            return true;
          }
          continue;
        }
        if bloom != null {
          var maybe := bloom.Test(candidate);
          if !maybe {
            continue;
          }
          if views[i].Some? && candidate in views[i].value {
            assert Confirmed(FilterInUse(), domain, views, i);
            return true;
          }
        }
      }
      SuffixInByIndex(domain, allowed);
      return false;
    }
  }

  // ---- The hybrid answer against plain suffix membership ----

  /** An allowed domain has a nonempty label suffix in the table at the moment of the confirming query. */
  lemma AllowedMeansInATable(filter: Filter, domain: string, views: seq<View>)
    requires |Split(domain)| == |views| && HybridAnswer(filter, domain, views)
    ensures exists i :: 0 <= i < |views| && views[i].Some? && SuffixIn(domain, views[i].value)
  {
    var i :| 0 <= i < |views| && Confirmed(filter, domain, views, i);
    SuffixAt(domain, i);
    assert SuffixIn(domain, views[i].value);
  }

  /** The filter was built from exactly this table. */
  ghost predicate BuiltFrom(filter: Filter, table: set<string>) {
    if table == {} then filter.NoFilter? else filter.Built? && filter.m > 0 && filter.added == table
  }

  function AllSee(domain: string, table: set<string>): seq<View> {
    seq(|Split(domain)|, i => Some(table))
  }

  /** With a filter built from the current table, the two-stage test is suffix membership, as in fallback mode. */
  lemma FreshFilterIsExact(filter: Filter, domain: string, table: set<string>)
    requires BuiltFrom(filter, table)
    ensures HybridAnswer(filter, domain, AllSee(domain, table)) <==> SuffixIn(domain, table)
  {
    var views := AllSee(domain, table);
    if HybridAnswer(filter, domain, views) {
      AllowedMeansInATable(filter, domain, views);
    }
    if SuffixIn(domain, table) {
      var s :| s in table && s != "" && IsLabelSuffix(domain, s);
      var i := SuffixIndex(domain, s);
      NoFalseNegatives(filter.hash, filter.k, filter.m, filter.added, s);
      assert Confirmed(filter, domain, views, i);
    }
  }

  /** Which suffixes the filter has to let through for the two-stage test to be suffix membership: of every listed
      name, itself or a listed parent. */
  ghost predicate LetsEnough(filter: Filter, table: set<string>) {
    forall s :: s in table && s != "" ==> LetsParent(filter, table, s)
  }

  ghost predicate LetsParent(filter: Filter, table: set<string>, s: string) {
    exists u :: u in table && u != "" && IsLabelSuffix(s, u) && filter.Lets(u)
  }

  /** Lookups that see one table throughout answer suffix membership in it. */
  ghost predicate Exact(filter: Filter, table: set<string>) {
    forall domain :: HybridAnswer(filter, domain, AllSee(domain, table)) <==> SuffixIn(domain, table)
  }

  lemma ConfirmedParent(filter: Filter, domain: string, table: set<string>, s: string)
    requires IsLabelSuffix(domain, s) && LetsParent(filter, table, s)
    ensures HybridAnswer(filter, domain, AllSee(domain, table))
  {
    var u :| u in table && u != "" && IsLabelSuffix(s, u) && filter.Lets(u);
    SuffixTransitive(domain, s, u);
    var i := SuffixIndex(domain, u);
    assert Confirmed(filter, domain, AllSee(domain, table), i);
  }

  /** Whatever filter is installed, the two-stage test is exact if and only if it lets enough through. */
  lemma ExactExactly(filter: Filter, table: set<string>)
    ensures Exact(filter, table) <==> LetsEnough(filter, table)
  {
    if LetsEnough(filter, table) {
      forall domain
        ensures HybridAnswer(filter, domain, AllSee(domain, table)) <==> SuffixIn(domain, table)
      {
        if HybridAnswer(filter, domain, AllSee(domain, table)) {
          AllowedMeansInATable(filter, domain, AllSee(domain, table));
        }
        if SuffixIn(domain, table) {
          var s :| s in table && s != "" && IsLabelSuffix(domain, s);
          ConfirmedParent(filter, domain, table, s);
        }
      }
    }
    if Exact(filter, table) {
      forall s | s in table && s != ""
        ensures LetsParent(filter, table, s)
      {
        assert SuffixIn(s, table);
        assert HybridAnswer(filter, s, AllSee(s, table));
        var i :| 0 <= i < |Split(s)| && Confirmed(filter, s, AllSee(s, table), i);
        SuffixAt(s, i);
      }
    }
  }

  // ---- Interleavings of commits, rebuilds, swaps and lookups ----

  /** A lookup holds the read lock from its start, so its filter stays. seen[i] is the index of the table
      current in its i-th round, None when the query of that round failed. began and ended are such indices too. */
  datatype Search = Search(domain: string, filter: Filter, built: int, began: nat, seen: seq<Option<nat>>, stage: Stage)

  datatype Stage = Looking | Answered(allowed: bool, ended: nat)

  /** tables is the history of committed tables, the last one current. A loader holds the index of the table it
      read; built is the index of the table the installed filter was made from, -1 before the first swap. */
  datatype State = State(tables: seq<set<string>>, filter: Filter, built: int, loaders: map<nat, nat>,
                         searches: map<nat, Search>)
  {
    function Current(): set<string>
      requires |tables| > 0
    {
      tables[|tables| - 1]
    }
  }

  datatype Step =
    | Commit(domains: seq<string>)
    | Snapshot(loader: nat)
    | Swap(loader: nat, hash: Hash, k: nat, m: nat)
    | LoadFails                    // the query of a rebuild fails
    | Begin(id: nat, domain: string)
    | Look(id: nat, fails: bool)   // one round of the candidate loop
    | Answer(id: nat)

  function ViewOf(tables: seq<set<string>>, index: Option<nat>): View {
    if index.Some? && index.value < |tables| then Some(tables[index.value]) else None
  }

  /** What the queries of a lookup saw; rounds it did not reach see nothing. */
  function Views(tables: seq<set<string>>, q: Search): seq<View> {
    seq(|Split(q.domain)|, i requires 0 <= i < |Split(q.domain)| =>
      if i < |q.seen| then ViewOf(tables, q.seen[i]) else None)
  }

  ghost predicate Confirms(tables: seq<set<string>>, q: Search) {
    HybridAnswer(q.filter, q.domain, Views(tables, q))
  }

  predicate LooksUp(s: State, id: nat) {
    id in s.searches && s.searches[id].stage.Looking?
  }

  ghost predicate Enabled(s: State, step: Step) {
    match step
    case Commit(_) => true
    case Snapshot(_) => |s.tables| > 0
    case Swap(loader, _, k, m) =>
      loader in s.loaders && s.loaders[loader] < |s.tables| && m > 0 && forall id :: !LooksUp(s, id)
    case LoadFails => true
    case Begin(id, _) => id !in s.searches && |s.tables| > 0
    case Look(id, _) =>
      |s.tables| > 0 && LooksUp(s, id) && |s.searches[id].seen| < |Split(s.searches[id].domain)| &&
      !Confirms(s.tables, s.searches[id])
    case Answer(id) =>
      |s.tables| > 0 && LooksUp(s, id) &&
      (Confirms(s.tables, s.searches[id]) || |s.searches[id].seen| == |Split(s.searches[id].domain)|)
  }

  /** UpdateWhitelist replaces the whole table in one transaction, skipping empty names. */
  ghost function Apply(s: State, step: Step): State
    requires Enabled(s, step)
  {
    match step
    case Commit(domains) => s.(tables := s.tables + [set d | d in domains && d != ""])
    case Snapshot(loader) => s.(loaders := s.loaders[loader := |s.tables| - 1])
    case Swap(loader, hash, k, m) =>
      var table := s.tables[s.loaders[loader]];
      s.(filter := if table == {} then NoFilter else Built(hash, k, m, table), built := s.loaders[loader],
         loaders := s.loaders - {loader})
    case LoadFails => s
    case Begin(id, domain) =>
      s.(searches := s.searches[id := Search(domain, s.filter, s.built, |s.tables| - 1, [], Looking)])
    case Look(id, fails) =>
      var q := s.searches[id];
      s.(searches := s.searches[id := q.(seen := q.seen + [if fails then None else Some(|s.tables| - 1)])])
    case Answer(id) =>
      var q := s.searches[id];
      s.(searches := s.searches[id := q.(stage := Answered(Confirms(s.tables, q), |s.tables| - 1))])
  }

  ghost predicate Possible(s: State, steps: seq<Step>)
    decreases |steps|
  {
    |steps| == 0 || (Enabled(s, steps[0]) && Possible(Apply(s, steps[0]), steps[1..]))
  }

  ghost function After(s: State, steps: seq<Step>): State
    requires Possible(s, steps)
    decreases |steps|
  {
    if |steps| == 0 then s else After(Apply(s, steps[0]), steps[1..])
  }

  function LastSeen(q: Search, tables: seq<set<string>>): int {
    if q.stage.Looking? then |tables| - 1 else q.stage.ended
  }

  /** Queries see tables current between the start and now, or the end. While it looks, the installed filter is its. */
  ghost predicate SearchOk(s: State, q: Search) {
    && |q.seen| <= |Split(q.domain)| && q.began <= LastSeen(q, s.tables) < |s.tables|
    && (forall i :: 0 <= i < |q.seen| && q.seen[i].Some? ==> q.began <= q.seen[i].value <= LastSeen(q, s.tables))
    && -1 <= q.built <= LastSeen(q, s.tables) && FilterOk(s.tables, q.filter, q.built)
    && (q.stage.Looking? ==> q.filter == s.filter && q.built == s.built)
    && (q.stage.Answered? ==>
         && (q.stage.allowed <==> Confirms(s.tables, q))
         && (!q.stage.allowed ==> |q.seen| == |Split(q.domain)|))
  }

  ghost predicate FilterOk(tables: seq<set<string>>, filter: Filter, built: int) {
    if built < 0 then filter.NoFilter? else built < |tables| && BuiltFrom(filter, tables[built])
  }

  ghost predicate Inv(s: State) {
    && |s.tables| > 0 && -1 <= s.built < |s.tables| && FilterOk(s.tables, s.filter, s.built)
    && (forall loader :: loader in s.loaders ==> s.loaders[loader] < |s.tables|)
    && (forall id :: id in s.searches ==> SearchOk(s, s.searches[id]))
  }

  /** A commit adds to the history and changes nothing that a lookup has seen. */
  lemma CommitKeepsSearch(s: State, later: State, q: Search)
    requires SearchOk(s, q) && s.tables <= later.tables
    requires q.stage.Looking? ==> later.filter == s.filter && later.built == s.built
    ensures SearchOk(later, q)
  {
    assert Views(later.tables, q) == Views(s.tables, q);
  }

  lemma LookKeepsSearch(s: State, step: Step)
    requires Inv(s) && Enabled(s, step) && step.Look?
    ensures SearchOk(Apply(s, step), Apply(s, step).searches[step.id])
  {
  }

  lemma AnswerKeepsSearch(s: State, step: Step)
    requires Inv(s) && Enabled(s, step) && step.Answer?
    ensures SearchOk(Apply(s, step), Apply(s, step).searches[step.id])
  {
    var q := s.searches[step.id];
    var done := Apply(s, step).searches[step.id];
    assert Views(s.tables, done) == Views(s.tables, q);
  }

  /** The searches a step does not move. */
  lemma OthersKept(s: State, step: Step, id: nat)
    requires Inv(s) && Enabled(s, step) && id in s.searches
    requires !((step.Look? || step.Answer?) && step.id == id)
    ensures id in Apply(s, step).searches && SearchOk(Apply(s, step), Apply(s, step).searches[id])
  {
    assert step.Swap? ==> !LooksUp(s, id);
    CommitKeepsSearch(s, Apply(s, step), s.searches[id]);
  }

  lemma StepKeepsInv(s: State, step: Step)
    requires Inv(s) && Enabled(s, step)
    ensures Inv(Apply(s, step)) && s.tables <= Apply(s, step).tables
  {
    var later := Apply(s, step);
    forall id | id in later.searches
      ensures SearchOk(later, later.searches[id])
    {
      if step.Look? && step.id == id {
        LookKeepsSearch(s, step);
      } else if step.Answer? && step.id == id {
        AnswerKeepsSearch(s, step);
      } else if id in s.searches {
        OthersKept(s, step, id);
      }
    }
  }

  lemma {:induction false} InvAlways(s: State, steps: seq<Step>)
    requires Inv(s) && Possible(s, steps)
    ensures Inv(After(s, steps)) && s.tables <= After(s, steps).tables
    decreases |steps|
  {
    if |steps| > 0 {
      StepKeepsInv(s, steps[0]);
      InvAlways(Apply(s, steps[0]), steps[1..]);
    }
  }

  function Opened(table: set<string>): State {
    State([table], NoFilter, -1, map[], map[])
  }

  ghost predicate SuffixInOneOf(domain: string, tables: seq<set<string>>, from: nat, to: nat) {
    exists n :: from <= n <= to && n < |tables| && SuffixIn(domain, tables[n])
  }

  ghost predicate ListedThroughout(s: string, tables: seq<set<string>>, from: nat, to: nat) {
    forall n :: from <= n <= to && n < |tables| ==> s in tables[n]
  }

  /** Safety over all interleavings: a lookup that answers "allowed" has a nonempty label suffix in a table that was
      current at some moment between its start and its end. */
  lemma WhitelistIsSafe(table: set<string>, steps: seq<Step>, id: nat)
    requires Possible(Opened(table), steps)
    requires var t := After(Opened(table), steps); id in t.searches && t.searches[id].stage.Answered?
    ensures var t := After(Opened(table), steps);
      var q := t.searches[id];
      q.stage.allowed ==> SuffixInOneOf(q.domain, t.tables, q.began, q.stage.ended)
  {
    InvAlways(Opened(table), steps);
    var t := After(Opened(table), steps);
    var q := t.searches[id];
    assert SearchOk(t, q);
    if q.stage.allowed {
      var views := Views(t.tables, q);
      AllowedMeansInATable(q.filter, q.domain, views);
      var i :| 0 <= i < |views| && views[i].Some? && SuffixIn(q.domain, views[i].value);
      assert SuffixIn(q.domain, t.tables[q.seen[i].value]);
    }
  }

  ghost predicate QueriesSucceed(q: Search) {
    forall i :: 0 <= i < |q.seen| ==> q.seen[i].Some?
  }

  /** The other way: a name in the table the filter was made from, and in every table current during the lookup,
      allows its subdomains, unless a query fails. */
  lemma ListedIsAllowed(table: set<string>, steps: seq<Step>, id: nat, s: string)
    requires Possible(Opened(table), steps)
    requires var t := After(Opened(table), steps); id in t.searches && t.searches[id].stage.Answered?
    requires var t := After(Opened(table), steps);
      var q := t.searches[id];
      && s != "" && IsLabelSuffix(q.domain, s) && QueriesSucceed(q)
      && 0 <= q.built < |t.tables| && s in t.tables[q.built]
      && ListedThroughout(s, t.tables, q.began, q.stage.ended)
    ensures After(Opened(table), steps).searches[id].stage.allowed
  {
    InvAlways(Opened(table), steps);
    var t := After(Opened(table), steps);
    var q := t.searches[id];
    assert SearchOk(t, q);
    if !q.stage.allowed {
      var i := SuffixIndex(q.domain, s);
      NoFalseNegatives(q.filter.hash, q.filter.k, q.filter.m, q.filter.added, s);
      assert s in t.tables[q.seen[i].value];
      assert Confirmed(q.filter, q.domain, Views(t.tables, q), i);
    }
  }

  /** A lookup during which no commit took effect, with the filter made from the current table and no failing query,
      answers exactly suffix membership in the current table. */
  lemma QuietLookupIsExact(table: set<string>, steps: seq<Step>, id: nat)
    requires Possible(Opened(table), steps)
    requires var t := After(Opened(table), steps); id in t.searches && t.searches[id].stage.Answered?
    requires var q := After(Opened(table), steps).searches[id];
      QueriesSucceed(q) && q.built == q.began == q.stage.ended
    ensures var t := After(Opened(table), steps);
      var q := t.searches[id];
      q.began < |t.tables| && (q.stage.allowed <==> SuffixIn(q.domain, t.tables[q.began]))
  {
    InvAlways(Opened(table), steps);
    var t := After(Opened(table), steps);
    var q := t.searches[id];
    assert SearchOk(t, q);
    WhitelistIsSafe(table, steps, id);
    if SuffixIn(q.domain, t.tables[q.began]) {
      var s :| s in t.tables[q.began] && s != "" && IsLabelSuffix(q.domain, s);
      ListedIsAllowed(table, steps, id, s);
    }
  }

  /** In every reachable state, lookups that see the last committed table are exact if and only if the installed
      filter lets enough of it through; a filter made from a table with the same names, or more, does. */
  lemma ReachableExactExactly(table: set<string>, steps: seq<Step>)
    requires Possible(Opened(table), steps)
    ensures var t := After(Opened(table), steps);
      && |t.tables| > 0 && -1 <= t.built < |t.tables|
      && (Exact(t.filter, t.Current()) <==> LetsEnough(t.filter, t.Current()))
      && (t.built >= 0 && t.Current() <= t.tables[t.built] ==> Exact(t.filter, t.Current()))
  {
    InvAlways(Opened(table), steps);
    var t := After(Opened(table), steps);
    ExactExactly(t.filter, t.Current());
    if t.built >= 0 && t.Current() <= t.tables[t.built] {
      forall s | s in t.Current() && s != ""
        ensures LetsParent(t.filter, t.Current(), s)
      {
        NoFalseNegatives(t.filter.hash, t.filter.k, t.filter.m, t.filter.added, s);
        assert t.filter.Lets(s) && IsLabelSuffix(s, s);
      }
    }
  }

  /** What may happen around a rebuild without making it stale. */
  predicate LeavesFresh(step: Step, loader: nat) {
    !step.Commit? && !step.Swap? && step != Snapshot(loader)
  }

  /** A rebuild: read the table and install the filter, with anything but commits and other swaps in between.
      It leaves a filter made from the last committed table. */
  lemma RebuildIsFresh(s: State, loader: nat, between: seq<Step>, hash: Hash, k: nat, m: nat)
    requires |s.tables| > 0 && Possible(s, [Snapshot(loader)] + (between + [Swap(loader, hash, k, m)]))
    requires forall i :: 0 <= i < |between| ==> LeavesFresh(between[i], loader)
    ensures var t := After(s, [Snapshot(loader)] + (between + [Swap(loader, hash, k, m)]));
            t.tables == s.tables && t.built == |s.tables| - 1
  {
    var steps := [Snapshot(loader)] + (between + [Swap(loader, hash, k, m)]);
    assert steps[1..] == between + [Swap(loader, hash, k, m)];
    SwapAfter(Apply(s, Snapshot(loader)), loader, between, hash, k, m);
  }

  lemma {:induction false} SwapAfter(s: State, loader: nat, between: seq<Step>, hash: Hash, k: nat, m: nat)
    requires |s.tables| > 0 && loader in s.loaders && s.loaders[loader] == |s.tables| - 1
    requires Possible(s, between + [Swap(loader, hash, k, m)])
    requires forall i :: 0 <= i < |between| ==> LeavesFresh(between[i], loader)
    ensures var t := After(s, between + [Swap(loader, hash, k, m)]);
            t.tables == s.tables && t.built == |s.tables| - 1
    decreases |between|
  {
    var steps := between + [Swap(loader, hash, k, m)];
    if |between| == 0 {
      assert steps == [Swap(loader, hash, k, m)] && steps[1..] == [];
    } else {
      assert steps[0] == between[0] && steps[1..] == between[1..] + [Swap(loader, hash, k, m)];
      SwapAfter(Apply(s, between[0]), loader, between[1..], hash, k, m);
    }
  }

  /** One step in front of a run. */
  lemma Before(s: State, step: Step, rest: seq<Step>)
    requires Enabled(s, step) && Possible(Apply(s, step), rest)
    ensures Possible(s, [step] + rest) && After(s, [step] + rest) == After(Apply(s, step), rest)
  {
    assert ([step] + rest)[1..] == rest;
  }

  /** The update task commits the new table and then fails to read it back: the old filter stays, and a domain that
      is newly listed is not allowed until some later rebuild. */
  lemma FailedReloadHidesAListedDomain(hash: Hash, k: nat, m: nat, domain: string)
    requires m > 0 && domain != ""
    ensures var steps := [Snapshot(1), Swap(1, hash, k, m), Commit([domain]), LoadFails];
      && Possible(Opened({}), steps)
      && After(Opened({}), steps).tables == [{}, {domain}]
      && SuffixIn(domain, {domain})
      && !HybridAnswer(After(Opened({}), steps).filter, domain, AllSee(domain, {domain}))
  {
    var s0 := Opened({});
    var s1 := Apply(s0, Snapshot(1));
    var s2 := Apply(s1, Swap(1, hash, k, m));
    var s3 := Apply(s2, Commit([domain]));
    assert s3.tables[1] == {domain};
    Before(s3, LoadFails, []);
    Before(s2, Commit([domain]), [LoadFails]);
    Before(s1, Swap(1, hash, k, m), [Commit([domain]), LoadFails]);
    Before(s0, Snapshot(1), [Swap(1, hash, k, m), Commit([domain]), LoadFails]);
  }

  /** With two rebuilds under way, the one that read the older table may install last: a listed domain is then
      not allowed although a rebuild followed the last commit. */
  lemma StaleRebuildHidesAListedDomain(hash: Hash, k: nat, m: nat, domain: string)
    requires m > 0 && domain != ""
    ensures var steps := [Snapshot(1), Commit([domain]), Snapshot(2), Swap(2, hash, k, m), Swap(1, hash, k, m)];
      && Possible(Opened({}), steps)
      && After(Opened({}), steps).tables == [{}, {domain}]
      && SuffixIn(domain, {domain})
      && !HybridAnswer(After(Opened({}), steps).filter, domain, AllSee(domain, {domain}))
  {
    var s0 := Opened({});
    var s1 := Apply(s0, Snapshot(1));
    var s2 := Apply(s1, Commit([domain]));
    assert s2.tables[1] == {domain};
    var s3 := Apply(s2, Snapshot(2));
    var s4 := Apply(s3, Swap(2, hash, k, m));
    Before(s4, Swap(1, hash, k, m), []);
    Before(s3, Swap(2, hash, k, m), [Swap(1, hash, k, m)]);
    Before(s2, Snapshot(2), [Swap(2, hash, k, m), Swap(1, hash, k, m)]);
    Before(s1, Commit([domain]), [Snapshot(2), Swap(2, hash, k, m), Swap(1, hash, k, m)]);
    Before(s0, Snapshot(1), [Commit([domain]), Snapshot(2), Swap(2, hash, k, m), Swap(1, hash, k, m)]);
  }
}
