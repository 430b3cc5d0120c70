/** Names that look like brands: which letters pass for which, what is reported of names that are decoded from
    punycode, and in which order brands and kinds of findings come. */
module Lookalikes {
  import opened BrandSpoofing
  import opened EditDistance
  import opened Labels
  import opened Wrappers

  // ---- Letters ----

  /** The Cyrillic and Greek letters that look like a Latin one. */
  function Alike(x: char): set<char> {
    match x
    case 'a' => {'\U{0430}', '\U{0410}', '\U{03B1}'}
    case 'b' => {'\U{0431}', '\U{0412}', '\U{03B2}'}
    case 'c' => {'\U{0441}', '\U{0421}'}
    case 'd' => {'\U{0501}'}
    case 'e' => {'\U{0435}', '\U{0415}', '\U{03B5}'}
    case 'h' => {'\U{04BB}', '\U{041D}'}
    case 'i' => {'\U{0456}', '\U{0406}', '\U{03B9}'}
    case 'j' => {'\U{0458}', '\U{0408}'}
    case 'k' => {'\U{041A}', '\U{03BA}'}
    case 'm' => {'\U{041C}'}
    case 'n' => {'\U{043F}'}
    case 'o' => {'\U{043E}', '\U{041E}', '\U{03BF}'}
    case 'p' => {'\U{0440}', '\U{0420}', '\U{03C1}'}
    case 'r' => {'\U{0433}'}
    case 's' => {'\U{0455}', '\U{0405}'}
    case 't' => {'\U{0442}', '\U{0422}', '\U{03C4}'}
    case 'u' => {'\U{03C5}'}
    case 'v' => {'\U{0475}'}
    case 'w' => {'\U{051D}'}
    case 'x' => {'\U{0445}', '\U{0425}', '\U{03C7}'}
    case 'y' => {'\U{0443}', '\U{04AE}'}
    case _ => {}
  }

  /** A letter's skeleton is a given ASCII character exactly when it is that character or looks like it. */
  lemma HomoglyphExactly(c: char, x: char)
    requires x as int < 0x80
    ensures Homoglyph(c) == x <==> c == x || c in Alike(x)
  {
  }

  /** part reads, letter by letter, as name. */
  predicate ReadsAs(part: string, name: string) {
    |part| == |name| && forall k :: 0 <= k < |name| ==> part[k] == name[k] || part[k] in Alike(name[k])
  }

  lemma SkeletonReads(part: string, name: string)
    requires Ascii(name)
    ensures Skeleton(part) == name <==> ReadsAs(part, name)
  {
    if |part| == |name| {
      forall k | 0 <= k < |name|
        ensures Skeleton(part)[k] == name[k] <==> part[k] == name[k] || part[k] in Alike(name[k])
      {
        HomoglyphExactly(part[k], name[k]);
      }
    }
  }

  /** Somewhere in s stands what reads as name. */
  predicate Spells(s: string, name: string) {
    exists k :: 0 <= k <= |s| - |name| && SpellsAt(s, name, k)
  }

  predicate SpellsAt(s: string, name: string, k: nat)
    requires k <= |s| - |name|
  {
    ReadsAs(s[k..k + |name|], name)
  }

  lemma SpellsExactly(s: string, name: string)
    requires Ascii(name)
    ensures Contains(Skeleton(s), name) <==> Spells(s, name)
  {
    forall k | 0 <= k <= |s| - |name|
      ensures OccursAt(Skeleton(s), name, k) <==> SpellsAt(s, name, k)
    {
      assert Skeleton(s)[k..k + |name|] == Skeleton(s[k..k + |name|]);
      SkeletonReads(s[k..k + |name|], name);
    }
    if Contains(Skeleton(s), name) {
      var k :| 0 <= k <= |Skeleton(s)| - |name| && OccursAt(Skeleton(s), name, k);
      assert SpellsAt(s, name, k);
    }
    if Spells(s, name) {
      var k :| 0 <= k <= |s| - |name| && SpellsAt(s, name, k);
      assert OccursAt(Skeleton(s), name, k);
    }
  }

  /** Being within a text is standing somewhere in it. */
  lemma ContainsExactly(s: string, part: string)
    ensures Contains(s, part) <==> exists before, behind :: s == before + part + behind
  {
    if Contains(s, part) {
      var i :| 0 <= i <= |s| - |part| && OccursAt(s, part, i);
      assert s == s[..i] + part + s[i + |part|..];
    }
    forall before: string, behind: string | s == before + part + behind
      ensures Contains(s, part)
    {
      assert OccursAt(s, part, |before|);
    }
  }

  // ---- Skeletons and labels ----

  lemma SkeletonDot(s: string, k: nat)
    requires k < |s|
    ensures Skeleton(s)[k] == '.' <==> s[k] == '.'
  {
    HomoglyphExactly(s[k], '.');
  }

  lemma SkeletonDotIndex(s: string)
    ensures '.' in Skeleton(s) <==> '.' in s
    ensures '.' in s ==> DotIndex(Skeleton(s)) == DotIndex(s)
  {
    forall k | 0 <= k < |s|
      ensures Skeleton(s)[k] == '.' <==> s[k] == '.'
    {
      SkeletonDot(s, k);
    }
    if '.' in s {
      var p := DotIndex(s);
      assert Skeleton(s)[p] == '.';
      assert forall k :: 0 <= k < p ==> s[..p][k] == s[k] != '.';
      DotIndexUnique(Skeleton(s), p);
    }
  }

  function Skeletons(parts: seq<string>): seq<string> {
    seq(|parts|, i requires 0 <= i < |parts| => Skeleton(parts[i]))
  }

  lemma SkeletonsOfMore(head: string, rest: seq<string>)
    ensures Skeletons([head] + rest) == [Skeleton(head)] + Skeletons(rest)
  {
  }

  lemma SkeletonParts(s: string, p: nat)
    requires p < |s|
    ensures Skeleton(s)[..p] == Skeleton(s[..p]) && Skeleton(s)[p + 1..] == Skeleton(s[p + 1..])
  {
  }

  lemma SplitOnce(s: string, p: nat, head: string, rest: string)
    requires '.' in s && p == DotIndex(s) && head == s[..p] && rest == s[p + 1..]
    ensures Split(s) == [head] + Split(rest)
  {
  }

  lemma SplitAtFirstDot(s: string)
    requires '.' in s
    ensures Split(Skeleton(s)) == [Skeleton(s[..DotIndex(s)])] + Split(Skeleton(s[DotIndex(s) + 1..]))
  {
    var p := DotIndex(s);
    SkeletonDotIndex(s);
    SkeletonParts(s, p);
    SplitOnce(Skeleton(s), p, Skeleton(s[..p]), Skeleton(s[p + 1..]));
  }

  /** Taking skeletons and splitting into labels commute. */
  lemma {:induction false} SkeletonOfLabels(s: string)
    ensures Split(Skeleton(s)) == Skeletons(Split(s))
    decreases |s|
  {
    if '.' in s {
      var head, rest := s[..DotIndex(s)], s[DotIndex(s) + 1..];
      SplitAtFirstDot(s);
      SkeletonOfLabels(rest);
      SkeletonsOfMore(head, Split(rest));
    } else {
      SkeletonDotIndex(s);
    }
  }

  // ---- Names as they are shown ----

  /** The labels after decoding. */
  function Decoded(text: Text, domain: string): seq<string> {
    Split(text.toUnicode(domain))
  }

  /** What label i looks like: its decoded form, letter by letter; without one, itself. */
  function Shown(text: Text, domain: string, i: nat): string
    requires i < |Split(domain)|
  {
    if i < |Decoded(text, domain)| then Skeleton(Decoded(text, domain)[i]) else Split(domain)[i]
  }

  lemma ShownIsSkeletonLabel(text: Text, domain: string, i: nat)
    requires i < |Split(domain)|
    ensures SkeletonLabel(ViewOf(text, domain), i) == Shown(text, domain, i)
  {
    SkeletonOfLabels(text.toUnicode(domain));
  }

  /** The domain is folded, and outside gov.vn. */
  predicate Checked(text: Text, domain: string) {
    && domain != "" && text.fold(domain) == domain
    && !IsVietnamGovernmentRoot(text, GetRootDomain(text, domain))
  }

  predicate NotOwn(text: Text, domain: string, brand: Brand) {
    GetRootDomain(text, domain) != brand.official && GetRootDomain(text, domain) !in brand.alternatives
  }

  lemma FoundFor(text: Text, brands: seq<Brand>, domain: string, brand: Brand)
    requires Checked(text, domain) && brand in brands && Reported(text, ViewOf(text, domain), brand)
    ensures Spoofing(text, brands, domain).Some?
  {
    ScanExactly(text, ViewOf(text, domain), brands);
  }

  /** Homoglyph coverage: a label that is shown, after decoding, as something that reads as a brand's name and is not
      that name, is reported, unless the domain is the brand's own or the label a public suffix. */
  lemma HomoglyphCoverage(text: Text, brands: seq<Brand>, domain: string, brand: Brand, i: nat)
    requires Checked(text, domain) && brand in brands && NotOwn(text, domain, brand)
    requires Ascii(brand.name) && |brand.name| >= 4
    requires i < |Split(domain)| && i < |Decoded(text, domain)| && !Skipped(Split(domain), i)
    requires ReadsAs(Decoded(text, domain)[i], brand.name) && Decoded(text, domain)[i] != brand.name
    ensures Spoofing(text, brands, domain).Some?
  {
    var view, part := ViewOf(text, domain), Split(domain)[i];
    SkeletonReads(Decoded(text, domain)[i], brand.name);
    ShownIsSkeletonLabel(text, domain, i);
    AsciiLen(brand.name);
    if part == brand.name {
      NameAsLabel(text, domain, brand, i);
    } else {
      SomethingIsAlike(text.toUnicode(domain), i);
      assert TypoFinding(text, view, brand, i) == Some(HomoglyphSpoof(brand.name, part));
      assert HasTypo(text, view, brand);
    }
    FoundFor(text, brands, domain, brand);
  }

  /** A label that differs from its skeleton makes the whole name differ from its. */
  lemma SomethingIsAlike(shown: string, i: nat)
    requires i < |Split(shown)| && Skeleton(Split(shown)[i]) != Split(shown)[i]
    ensures Skeleton(shown) != shown
  {
    SkeletonOfLabels(shown);
  }

  lemma NameAsLabel(text: Text, domain: string, brand: Brand, i: nat)
    requires text.fold(domain) == domain && NotOwn(text, domain, brand)
    requires i < |Split(domain)| && Split(domain)[i] == brand.name
    ensures Reported(text, ViewOf(text, domain), brand)
  {
    var view := ViewOf(text, domain);
    if i < |view.labels| - |Split(view.root)| {
      Equal(brand.name);
      assert BrandSubdomain(view, brand, i);
    } else {
      RootContainsLabel(text, domain, i);
    }
  }

  /** A brand's name spelt anywhere in the decoded root domain is reported. */
  lemma SpeltInRoot(text: Text, brands: seq<Brand>, domain: string, brand: Brand)
    requires Checked(text, domain) && brand in brands && NotOwn(text, domain, brand) && Ascii(brand.name)
    requires Spells(GetRootDomain(text, text.toUnicode(domain)), brand.name)
    ensures Spoofing(text, brands, domain).Some?
  {
    SpellsExactly(GetRootDomain(text, text.toUnicode(domain)), brand.name);
    FoundFor(text, brands, domain, brand);
  }

  /** And so is one spelt in a decoded label before the root domain. */
  lemma SpeltInSubdomain(text: Text, brands: seq<Brand>, domain: string, brand: Brand, i: nat)
    requires Checked(text, domain) && brand in brands && NotOwn(text, domain, brand) && Ascii(brand.name)
    requires i < |Decoded(text, domain)| && i < |Split(domain)| - |Split(GetRootDomain(text, domain))|
    requires Spells(Decoded(text, domain)[i], brand.name)
    ensures Spoofing(text, brands, domain).Some?
  {
    SpellsExactly(Decoded(text, domain)[i], brand.name);
    ShownIsSkeletonLabel(text, domain, i);
    assert BrandSubdomain(ViewOf(text, domain), brand, i);
    FoundFor(text, brands, domain, brand);
  }

  // ---- Exactly which names are reported ----

  /** A label that is neither the last one again, nor com, co, net, org, gov, edu or ac before the last. */
  predicate Weighed(labels: seq<string>, i: nat)
    requires i < |labels|
  {
    && (|labels| > 1 ==> labels[i] != labels[|labels| - 1])
    && (|labels| > 2 && labels[i] == labels[|labels| - 2] ==>
          labels[i] != "com" && labels[i] != "co" && labels[i] != "net" && labels[i] != "org" &&
          labels[i] != "gov" && labels[i] != "edu" && labels[i] != "ac")
  }

  lemma DoubleTlds(s: string)
    ensures s in DOUBLE_TLDS <==>
            s == "com" || s == "co" || s == "net" || s == "org" || s == "gov" || s == "edu" || s == "ac"
  {
    assert DOUBLE_TLDS[0] == "com" && DOUBLE_TLDS[1] == "co" && DOUBLE_TLDS[2] == "net" && DOUBLE_TLDS[3] == "org";
    assert DOUBLE_TLDS[4] == "gov" && DOUBLE_TLDS[5] == "edu" && DOUBLE_TLDS[6] == "ac";
  }

  lemma WeighedExactly(labels: seq<string>, i: nat)
    requires i < |labels|
    ensures Weighed(labels, i) <==> !Skipped(labels, i)
  {
    DoubleTlds(labels[i]);
  }

  /** Label i is shown as something close to the brand's name: as the name itself, in a domain with a lookalike and
      written differently; or at most one and a half weighted or two plain edits from it. */
  ghost predicate ShownLike(text: Text, domain: string, brand: Brand, i: nat)
    requires i < |Split(domain)|
  {
    var shown := Shown(text, domain, i);
    && Weighed(Split(domain), i) && Utf8Len(shown) >= 4 && Utf8Len(brand.name) >= 4
    && ((shown == brand.name && Split(domain)[i] != brand.name &&
         Skeleton(text.toUnicode(domain)) != text.toUnicode(domain))
        || (shown != brand.name &&
            (D(Keyboard(text.lower), shown, brand.name) <= 3 || D(Unit, shown, brand.name) <= 2)))
  }

  ghost predicate Suspected(text: Text, domain: string, brand: Brand) {
    || (exists i :: 0 <= i < |Split(domain)| && ShownLike(text, domain, brand, i))
    || Contains(GetRootDomain(text, domain), brand.name)
    || Spells(GetRootDomain(text, text.toUnicode(domain)), brand.name)
    || exists i :: 0 <= i < |Split(domain)| - |Split(GetRootDomain(text, domain))| &&
         (Contains(Split(domain)[i], brand.name) || Contains(Shown(text, domain, i), brand.name))
  }

  lemma ShownTypo(text: Text, domain: string, brand: Brand, i: nat)
    requires i < |Split(domain)|
    ensures TypoFinding(text, ViewOf(text, domain), brand, i).Some? <==> ShownLike(text, domain, brand, i)
  {
    ShownIsSkeletonLabel(text, domain, i);
    WeighedExactly(Split(domain), i);
    Identity(Unit, Shown(text, domain, i), brand.name);
    Identity(Keyboard(text.lower), Shown(text, domain, i), brand.name);
  }

  lemma SuspectedExactly(text: Text, domain: string, brand: Brand)
    requires Ascii(brand.name)
    ensures Reported(text, ViewOf(text, domain), brand) <==>
            NotOwn(text, domain, brand) && Suspected(text, domain, brand)
  {
    var view := ViewOf(text, domain);
    forall i | 0 <= i < |view.labels|
      ensures TypoFinding(text, view, brand, i).Some? <==> ShownLike(text, domain, brand, i)
    {
      ShownTypo(text, domain, brand, i);
    }
    assert HasTypo(text, view, brand) <==> exists i :: 0 <= i < |view.labels| && ShownLike(text, domain, brand, i);
    SpellsExactly(GetRootDomain(text, text.toUnicode(domain)), brand.name);
    SubdomainExactly(text, domain, brand);
  }

  lemma SubdomainExactly(text: Text, domain: string, brand: Brand)
    ensures HasSubdomain(ViewOf(text, domain), brand) <==>
            exists i :: 0 <= i < |Split(domain)| - |Split(GetRootDomain(text, domain))| &&
              (Contains(Split(domain)[i], brand.name) || Contains(Shown(text, domain, i), brand.name))
  {
    var view := ViewOf(text, domain);
    forall i | 0 <= i < |view.labels|
      ensures SkeletonLabel(view, i) == Shown(text, domain, i)
    {
      ShownIsSkeletonLabel(text, domain, i);
    }
    if HasSubdomain(view, brand) {
      var i :| 0 <= i < |view.labels| && BrandSubdomain(view, brand, i);
      assert Contains(Split(domain)[i], brand.name) || Contains(Shown(text, domain, i), brand.name);
    }
    forall i | 0 <= i < |Split(domain)| - |Split(GetRootDomain(text, domain))| &&
               (Contains(Split(domain)[i], brand.name) || Contains(Shown(text, domain, i), brand.name))
      ensures HasSubdomain(view, brand)
    {
      assert BrandSubdomain(view, brand, i);
    }
  }

  /** For every name, decoded or not, and brands with ASCII names: it is reported if and only if it is outside gov.vn
      and suspected of imitating some brand whose own domain it is not. */
  lemma ReportedForAllNames(text: Text, brands: seq<Brand>, domain: string)
    requires domain != "" && text.fold(domain) == domain
    requires forall brand :: brand in brands ==> Ascii(brand.name)
    ensures Spoofing(text, brands, domain).Some? <==>
            && !IsVietnamGovernmentRoot(text, GetRootDomain(text, domain))
            && exists brand :: brand in brands && NotOwn(text, domain, brand) && Suspected(text, domain, brand)
  {
    ScanExactly(text, ViewOf(text, domain), brands);
    forall brand | brand in brands
      ensures Reported(text, ViewOf(text, domain), brand) <==>
              NotOwn(text, domain, brand) && Suspected(text, domain, brand)
    {
      SuspectedExactly(text, domain, brand);
    }
  }

  // ---- Root domains, order and penalty ----

  /** The root domain has three labels when a two-letter one follows com, co, net, org, gov, edu or ac, and two
      otherwise; a name of fewer labels is its own root. */
  lemma RootLabels(text: Text, domain: string)
    requires text.fold(domain) == domain
    ensures var parts, root := Split(domain), Split(GetRootDomain(text, domain));
      var n := |parts|;
      && |root| <= n && root == parts[n - |root|..]
      && |root| == if n <= 2 then n
                   else if Utf8Len(parts[n - 1]) == 2 && (parts[n - 2] == "com" || parts[n - 2] == "co" ||
                           parts[n - 2] == "net" || parts[n - 2] == "org" || parts[n - 2] == "gov" ||
                           parts[n - 2] == "edu" || parts[n - 2] == "ac") then 3 else 2
  {
    var parts := Split(domain);
    RootParts(text, domain);
    if |parts| > 2 {
      DoubleTlds(parts[|parts| - 2]);
      SplitJoin(parts[|parts| - 2..]);
      SplitJoin(parts[|parts| - 3..]);
    }
  }

  /** Government names: gov.vn and what lies under it. */
  lemma GovernmentExactly(text: Text, root: string)
    requires text.fold(root) == root
    ensures IsVietnamGovernmentRoot(text, root) <==> IsLabelSuffix(root, "gov.vn")
  {
    assert "." + "gov.vn" == ".gov.vn";
  }

  /** The report names the first brand, in the order of the list, that is reported at all. */
  lemma {:induction false} FirstBrandReported(text: Text, view: View, brands: seq<Brand>) returns (b: nat)
    requires Scan(text, view, brands).Some?
    ensures b < |brands| && Reported(text, view, brands[b])
    ensures Scan(text, view, brands) == BrandFinding(text, view, brands[b])
    ensures forall k :: 0 <= k < b ==> !Reported(text, view, brands[k])
    decreases |brands|
  {
    BrandReportedExactly(text, view, brands[0]);
    if BrandFinding(text, view, brands[0]).Some? {
      b := 0;
    } else {
      var rest := FirstBrandReported(text, view, brands[1..]);
      b := rest + 1;
    }
  }

  /** And the strongest kind of evidence: a typosquat before a mention, a mention before a subdomain. */
  lemma KindOfFinding(text: Text, view: View, brand: Brand)
    requires Reported(text, view, brand)
    ensures BrandFinding(text, view, brand).Some?
    ensures var f := BrandFinding(text, view, brand).value;
      && f.brand == brand.name
      && (HasTypo(text, view, brand) <==> f.HomoglyphSpoof? || f.KeyboardTypo? || f.ClassicTypo?)
      && (!HasTypo(text, view, brand) && MentionsBrand(view, brand) <==> f.KeywordMention?)
      && (!HasTypo(text, view, brand) && !MentionsBrand(view, brand) <==> f.SubdomainUse?)
  {
    TyposExactly(text, view, brand);
    if HasTypo(text, view, brand) {
      TypoIsClose(text, view, brand, 0);
    }
  }

  lemma EmptyIsNoTld(tld: string)
    requires |tld| == 0
    ensures tld !in SUSPICIOUS_TLDS
  {
  }

  /** The penalty is the configured score, ten less for a subdomain, and twenty more under a risky top-level domain:
      the last label of a root domain that has more than one. */
  lemma PenaltyExactly(text: Text, domain: string, finding: Finding, score: int)
    ensures var root := Split(GetRootDomain(text, domain));
      Penalty(ViewOf(text, domain), finding, score) ==
        score - (if finding.SubdomainUse? then 10 else 0)
              + (if |root| > 1 && root[|root| - 1] in SUSPICIOUS_TLDS then 20 else 0)
  {
    var root := Split(GetRootDomain(text, domain));
    assert ViewOf(text, domain).tld == if |root| > 1 then root[|root| - 1] else "";
    EmptyIsNoTld("");
  }
}
