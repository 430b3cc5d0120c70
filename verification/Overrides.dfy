/** Which override applies to a domain: the one on its longest label suffix, a group's before the global one. */
module Overrides {
  import opened Labels

  datatype Override = Override(id: int, domain: string, action: string, reason: string)

  /** What a lookup finds: a row, no row, or a database error. */
  datatype Lookup = Row(found: Override) | NoRow | QueryError

  /** The two override tables, and the names for which their queries fail. */
  datatype Tables = Tables(group: map<(int, string), Override>, global: map<string, Override>,
                           groupFails: set<string>, globalFails: set<string>)
  {
    function GroupRow(groupID: int, name: string): Lookup {
      if name in groupFails then QueryError else if (groupID, name) in group then Row(group[(groupID, name)]) else NoRow
    }

    function GlobalRow(name: string): Lookup {
      if name in globalFails then QueryError else if name in global then Row(global[name]) else NoRow
    }

    /** The group's row before the global one. */
    function At(groupID: int, name: string): Lookup {
      if GroupRow(groupID, name).NoRow? then GlobalRow(name) else GroupRow(groupID, name)
    }
  }

  /** The lookup at the longest label suffix that has one; nothing when no label suffix has. */
  ghost predicate IsEffective(t: Tables, groupID: int, domain: string, r: Lookup) {
    if r.NoRow? then forall s :: IsLabelSuffix(domain, s) ==> t.At(groupID, s).NoRow?
    else exists s :: IsLongest(t, groupID, domain, s) && t.At(groupID, s) == r
  }

  ghost predicate IsLongest(t: Tables, groupID: int, domain: string, s: string) {
    && IsLabelSuffix(domain, s)
    && forall longer :: IsLabelSuffix(domain, longer) && |longer| > |s| ==> t.At(groupID, longer).NoRow?
  }

  /** domain is trimmed and lower-case. */
  method GetEffectiveOverride(t: Tables, groupID: int, domain: string) returns (r: Lookup)
    ensures IsEffective(t, groupID, domain, r)
  {
    var parts := Split(domain);
    for i := 0 to |parts|
      invariant forall k :: 0 <= k < i ==> t.At(groupID, Join(parts[k..])).NoRow?
    {
      var candidate := Join(parts[i..]);
      LongestSoFar(t, groupID, domain, i);
      var group := t.GroupRow(groupID, candidate);
      if !group.NoRow? {
        return group;
      }
      var global := t.GlobalRow(candidate);
      if !global.NoRow? {
        return global;
      }
    }
    forall s | IsLabelSuffix(domain, s)
      ensures t.At(groupID, s).NoRow?
    {
      var k := SuffixIndex(domain, s);
    }
    return NoRow;
  }

  /** When nothing was found before index i, nothing is found at any longer suffix. */
  lemma LongestSoFar(t: Tables, groupID: int, domain: string, i: nat)
    requires i < |Split(domain)|
    requires forall k :: 0 <= k < i ==> t.At(groupID, Join(Split(domain)[k..])).NoRow?
    ensures IsLongest(t, groupID, domain, Join(Split(domain)[i..]))
  {
    SuffixAt(domain, i);
    forall longer | IsLabelSuffix(domain, longer) && |longer| > |Join(Split(domain)[i..])|
      ensures t.At(groupID, longer).NoRow?
    {
      var k := SuffixIndex(domain, longer);
      if k > i {
        SuffixesShrink(domain, i, k);
      }
    }
  }

  ghost predicate AgreeOnSuffixes(t: Tables, u: Tables, groupID: int, domain: string) {
    forall s :: IsLabelSuffix(domain, s) ==> t.At(groupID, s) == u.At(groupID, s)
  }

  /** The effective override is determined by the rows at the domain's label suffixes. */
  lemma EffectiveDetermined(t: Tables, u: Tables, groupID: int, domain: string, r: Lookup, q: Lookup)
    requires AgreeOnSuffixes(t, u, groupID, domain)
    requires IsEffective(t, groupID, domain, r) && IsEffective(u, groupID, domain, q)
    ensures r == q
  {
    if !r.NoRow? && !q.NoRow? {
      var s :| IsLongest(t, groupID, domain, s) && t.At(groupID, s) == r;
      var p :| IsLongest(u, groupID, domain, p) && u.At(groupID, p) == q;
      assert u.At(groupID, s) == r && t.At(groupID, p) == q;
      assert |s| == |p|;
      SuffixesOfOneLength(domain, s, p);
    }
  }

  /** Overrides on names that are not label suffixes of the domain never matter. */
  lemma NonSuffixesNeverMatter(t: Tables, groupID: int, domain: string, name: string, o: Override, r: Lookup)
    requires IsEffective(t, groupID, domain, r) && !IsLabelSuffix(domain, name)
    ensures IsEffective(t.(global := t.global[name := o]), groupID, domain, r)
    ensures IsEffective(t.(group := t.group[(groupID, name) := o]), groupID, domain, r)
  {
    SameRowsSameEffect(t, t.(global := t.global[name := o]), groupID, domain, r);
    SameRowsSameEffect(t, t.(group := t.group[(groupID, name) := o]), groupID, domain, r);
  }

  /** Neither do the overrides of other groups. */
  lemma OtherGroupsNeverMatter(t: Tables, groupID: int, domain: string, name: string, o: Override, other: int,
                               r: Lookup)
    requires IsEffective(t, groupID, domain, r) && other != groupID
    ensures IsEffective(t.(group := t.group[(other, name) := o]), groupID, domain, r)
  {
    SameRowsSameEffect(t, t.(group := t.group[(other, name) := o]), groupID, domain, r);
  }

  lemma SameRowsSameEffect(t: Tables, u: Tables, groupID: int, domain: string, r: Lookup)
    requires AgreeOnSuffixes(t, u, groupID, domain) && IsEffective(t, groupID, domain, r)
    ensures IsEffective(u, groupID, domain, r)
  {
    if r.NoRow? {
      assert forall s :: IsLabelSuffix(domain, s) ==> u.At(groupID, s) == t.At(groupID, s);
    } else {
      var s :| IsLongest(t, groupID, domain, s) && t.At(groupID, s) == r;
      assert IsLongest(u, groupID, domain, s);
    }
  }

  // ---- On the tables themselves ----

  ghost predicate HasRow(t: Tables, groupID: int, name: string) {
    (groupID, name) in t.group || name in t.global
  }

  predicate Answers(t: Tables, name: string) {
    name !in t.groupFails && name !in t.globalFails
  }

  /** No row for any longer label suffix of the domain, and no failing query there. */
  ghost predicate NothingAbove(t: Tables, groupID: int, domain: string, s: string) {
    && IsLabelSuffix(domain, s)
    && forall longer :: IsLabelSuffix(domain, longer) && |longer| > |s| ==>
         !HasRow(t, groupID, longer) && Answers(t, longer)
  }

  lemma EffectiveAt(t: Tables, groupID: int, domain: string, s: string, r: Lookup)
    requires NothingAbove(t, groupID, domain, s) && IsEffective(t, groupID, domain, r) && !t.At(groupID, s).NoRow?
    ensures r == t.At(groupID, s)
  {
    forall longer | IsLabelSuffix(domain, longer) && |longer| > |s|
      ensures t.At(groupID, longer).NoRow?
    {
    }
    assert IsLongest(t, groupID, domain, s);
    if !r.NoRow? {
      var p :| IsLongest(t, groupID, domain, p) && t.At(groupID, p) == r;
      SuffixesOfOneLength(domain, s, if |p| == |s| then p else s);
    }
  }

  /** A group's row at the longest suffix with any row decides, whatever the global table holds or does there. */
  lemma GroupRowWins(t: Tables, groupID: int, domain: string, s: string, r: Lookup)
    requires NothingAbove(t, groupID, domain, s) && IsEffective(t, groupID, domain, r)
    requires (groupID, s) in t.group && s !in t.groupFails
    ensures r == Row(t.group[(groupID, s)])
  {
    EffectiveAt(t, groupID, domain, s, r);
  }

  /** Without a group's row there, the global row does. */
  lemma GlobalRowElse(t: Tables, groupID: int, domain: string, s: string, r: Lookup)
    requires NothingAbove(t, groupID, domain, s) && IsEffective(t, groupID, domain, r)
    requires (groupID, s) !in t.group && s in t.global && Answers(t, s)
    ensures r == Row(t.global[s])
  {
    EffectiveAt(t, groupID, domain, s, r);
  }

  /** A failing query at the first suffix that decides anything is an error: of the group table at once, of the
      global table when the group has no row. */
  lemma FailureDecides(t: Tables, groupID: int, domain: string, s: string, r: Lookup)
    requires NothingAbove(t, groupID, domain, s) && IsEffective(t, groupID, domain, r)
    requires s in t.groupFails || (s in t.globalFails && (groupID, s) !in t.group)
    ensures r == QueryError
  {
    EffectiveAt(t, groupID, domain, s, r);
  }

  /** Without any row and any failure there is no override, and only then. */
  lemma NoOverrideExactly(t: Tables, groupID: int, domain: string, r: Lookup)
    requires IsEffective(t, groupID, domain, r)
    ensures r == NoRow <==> forall s :: IsLabelSuffix(domain, s) ==> !HasRow(t, groupID, s) && Answers(t, s)
  {
    if r == NoRow {
      forall s | IsLabelSuffix(domain, s)
        ensures !HasRow(t, groupID, s) && Answers(t, s)
      {
        assert t.At(groupID, s).NoRow?;
      }
    }
  }

  /** Adding, changing or removing the global row where the group has one changes nothing. */
  lemma GlobalRowBelowGroupRow(t: Tables, u: Tables, groupID: int, domain: string, s: string, r: Lookup)
    requires NothingAbove(t, groupID, domain, s) && (groupID, s) in t.group && s !in t.groupFails
    requires u == t.(global := u.global) && forall name :: name != s ==> (name in u.global <==> name in t.global)
    requires IsEffective(t, groupID, domain, r)
    ensures IsEffective(u, groupID, domain, r)
  {
    GroupRowWins(t, groupID, domain, s, r);
    forall longer | IsLabelSuffix(domain, longer) && |longer| > |s|
      ensures u.At(groupID, longer).NoRow?
    {
      assert !HasRow(t, groupID, longer) && Answers(t, longer);
    }
    assert IsLongest(u, groupID, domain, s);
  }

  /** Inheritance: a subdomain without rows of its own below the parent gets exactly the parent's override. */
  lemma SubdomainInherits(t: Tables, groupID: int, domain: string, parent: string, r: Lookup)
    requires IsLabelSuffix(domain, parent)
    requires forall s :: IsLabelSuffix(domain, s) && |s| > |parent| ==> t.At(groupID, s).NoRow?
    requires IsEffective(t, groupID, parent, r)
    ensures IsEffective(t, groupID, domain, r)
  {
    forall s | IsLabelSuffix(domain, s) && |s| <= |parent|
      ensures IsLabelSuffix(parent, s)
    {
      SuffixLinear(domain, parent, s);
    }
    if !r.NoRow? {
      var s :| IsLongest(t, groupID, parent, s) && t.At(groupID, s) == r;
      SuffixTransitive(domain, parent, s);
      assert IsLongest(t, groupID, domain, s);
    }
  }
}
