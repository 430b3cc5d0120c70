/** CheckBrandSpoofing: typosquats, homoglyphs, brand keywords and brand subdomains, with the coverage theorem. */
module BrandSpoofing {
  import opened EditDistance
  import opened Labels
  import opened Wrappers

  datatype Brand = Brand(name: string, official: string, alternatives: seq<string>)

  /** What the standard library does to Unicode text, as parameters: fold is ToLower after TrimSpace,
      toUnicode is idna.ToUnicode (with the input itself when that fails), lower is unicode.ToLower. */
  datatype Text = Text(fold: string -> string, toUnicode: string -> string, lower: char -> char)

  const DOUBLE_TLDS: seq<string> := ["com", "co", "net", "org", "gov", "edu", "ac"]

  const SUSPICIOUS_TLDS: set<string> := {
    "xyz", "top", "cc", "info", "work", "club", "fit", "vip", "cf", "gq", "ga", "ml", "tk", "icu", "asia", "buzz", "bid"
  }

  const TRUSTED_BRANDS: seq<Brand> := [
    Brand("google", "google.com", ["google.com.vn", "google.co.uk", "google.com.sg"]),
    Brand("binance", "binance.com", ["binance.us", "binance.info"]),
    Brand("paypal", "paypal.com", ["paypal.me"]),
    Brand("facebook", "facebook.com", ["fb.com", "messenger.com"]),
    Brand("apple", "apple.com", ["icloud.com"]),
    Brand("microsoft", "microsoft.com", ["live.com", "outlook.com", "office.com"]),
    Brand("amazon", "amazon.com", []),
    Brand("netflix", "netflix.com", []),
    Brand("instagram", "instagram.com", []),
    Brand("twitter", "twitter.com", ["x.com"]),
    Brand("metamask", "metamask.io", []),
    Brand("coinbase", "coinbase.com", []),
    Brand("trustwallet", "trustwallet.com", []),
    Brand("yahoo", "yahoo.com", []),
    Brand("linkedin", "linkedin.com", []),
    Brand("chinhphu", "chinhphu.vn", ["chinhphu.gov.vn"]),
    Brand("bocongan", "bocongan.gov.vn", ["mps.gov.vn"]),
    Brand("baohiemxahoi", "baohiemxahoi.gov.vn", ["bhxh.gov.vn"]),
    Brand("vtv", "vtv.vn", []),
    Brand("vietcombank", "vietcombank.com.vn", ["vietcombank.com"]),
    Brand("techcombank", "techcombank.com.vn", ["techcombank.com"]),
    Brand("bidv", "bidv.com.vn", ["bidv.com"]),
    Brand("vietinbank", "vietinbank.vn", ["vietinbank.co.vn"]),
    Brand("mbbank", "mbbank.com.vn", ["mbbank.com"]),
    Brand("agribank", "agribank.com.vn", ["agribank.com"]),
    Brand("vpbank", "vpbank.com.vn", ["vpbank.com"]),
    Brand("acb", "acb.com.vn", ["acb.com"]),
    Brand("sacombank", "sacombank.com.vn", ["sacombank.com"]),
    Brand("tpbank", "tpb.vn", ["tpbank.com.vn"]),
    Brand("vib", "vib.com.vn", []),
    Brand("hdbank", "hdbank.com.vn", []),
    Brand("shb", "shb.com.vn", []),
    Brand("scb", "scb.com.vn", [])
  ]

  /** len(s): the number of bytes of the UTF-8 encoding. */
  function Utf8Len(s: string): nat {
    if s == "" then 0
    else (var c := s[0] as int; if c < 0x80 then 1 else if c < 0x800 then 2 else if c < 0x10000 then 3 else 4)
         + Utf8Len(s[1..])
  }

  predicate Ascii(s: string) {
    forall i :: 0 <= i < |s| ==> s[i] as int < 0x80
  }

  predicate Contains(s: string, part: string) {
    exists i :: 0 <= i <= |s| - |part| && OccursAt(s, part, i)
  }

  predicate OccursAt(s: string, part: string, i: nat)
    requires i <= |s| - |part|
  {
    s[i..i + |part|] == part
  }

  function GetRootDomain(text: Text, input: string): string {
    var domain := text.fold(input);
    var parts := Split(domain);
    var n := |parts|;
    if n <= 2 then domain
    else if parts[n - 2] in DOUBLE_TLDS && Utf8Len(parts[n - 1]) == 2 then Join(parts[n - 3..])
    else Join(parts[n - 2..])
  }

  predicate IsVietnamGovernmentRoot(text: Text, root: string) {
    var folded := text.fold(root);
    folded == "gov.vn" || HasSuffix(folded, ".gov.vn")
  }

  // ---- Homoglyph skeletons ----

  function Homoglyph(c: char): char {
    match c
    case '\U{0430}' => 'a' case '\U{0431}' => 'b' case '\U{0441}' => 'c' case '\U{0501}' => 'd'
    case '\U{0435}' => 'e' case '\U{0066}' => 'f' case '\U{0067}' => 'g' case '\U{04BB}' => 'h'
    case '\U{0456}' => 'i' case '\U{0458}' => 'j' case '\U{006B}' => 'k' case '\U{006C}' => 'l'
    case '\U{006D}' => 'm' case '\U{043F}' => 'n' case '\U{043E}' => 'o' case '\U{0440}' => 'p'
    case '\U{0071}' => 'q' case '\U{0433}' => 'r' case '\U{0455}' => 's' case '\U{0442}' => 't'
    case '\U{03C5}' => 'u' case '\U{0475}' => 'v' case '\U{051D}' => 'w' case '\U{0445}' => 'x'
    case '\U{0443}' => 'y' case '\U{007A}' => 'z' case '\U{0410}' => 'a' case '\U{0412}' => 'b'
    case '\U{0421}' => 'c' case '\U{0415}' => 'e' case '\U{041D}' => 'h' case '\U{0406}' => 'i'
    case '\U{0408}' => 'j' case '\U{041A}' => 'k' case '\U{041C}' => 'm' case '\U{041E}' => 'o'
    case '\U{0420}' => 'p' case '\U{0405}' => 's' case '\U{0422}' => 't' case '\U{0425}' => 'x'
    case '\U{04AE}' => 'y' case '\U{03B1}' => 'a' case '\U{03B2}' => 'b' case '\U{03B5}' => 'e'
    case '\U{03B9}' => 'i' case '\U{03BA}' => 'k' case '\U{03BF}' => 'o' case '\U{03C1}' => 'p'
    case '\U{03C4}' => 't' case '\U{03C7}' => 'x'
    case _ => c
  }

  function Skeleton(s: string): string {
    seq(|s|, i requires 0 <= i < |s| => Homoglyph(s[i]))
  }

  method ToSkeleton(s: string) returns (skeleton: string)
    ensures skeleton == Skeleton(s)
  {
    var runes := new char[|s|](_ => 'a');
    for i := 0 to |s|
      invariant runes[..i] == Skeleton(s)[..i]
    {
      runes[i] := Homoglyph(s[i]);
    }
    skeleton := runes[..];
  }

  /** A homoglyph stands for an ASCII letter, and ASCII stands for itself. */
  lemma HomoglyphLaws(c: char)
    ensures Homoglyph(c) == c || Homoglyph(c) as int < 0x80
    ensures c as int < 0x80 ==> Homoglyph(c) == c
  {
  }

  /** Skeletons are stable, and plain ASCII names are their own skeletons. */
  lemma SkeletonLaws(s: string)
    ensures Skeleton(Skeleton(s)) == Skeleton(s)
    ensures Ascii(s) ==> Skeleton(s) == s
  {
    forall i | 0 <= i < |s|
      ensures Skeleton(Skeleton(s))[i] == Skeleton(s)[i]
      ensures Ascii(s) ==> Skeleton(s)[i] == s[i]
    {
      HomoglyphLaws(s[i]);
      HomoglyphLaws(Homoglyph(s[i]));
    }
  }

  // ---- The check as a function of what it looks at ----

  datatype View = View(labels: seq<string>, skeletonLabels: seq<string>, root: string, skeletonRoot: string,
                       tld: string, homoglyphs: bool)

  function ViewOf(text: Text, domain: string): View {
    var unicodeDomain := text.toUnicode(domain);
    var root := GetRootDomain(text, domain);
    var rootParts := Split(root);
    View(Split(domain), Split(Skeleton(unicodeDomain)), root, Skeleton(GetRootDomain(text, unicodeDomain)),
         if |rootParts| > 1 then rootParts[|rootParts| - 1] else "",
         Skeleton(unicodeDomain) != unicodeDomain)
  }

  datatype Finding =
    | HomoglyphSpoof(brand: string, part: string)
    | KeyboardTypo(brand: string, part: string, homoglyph: bool)
    | ClassicTypo(brand: string, part: string)
    | KeywordMention(brand: string)
    | SubdomainUse(brand: string)

  predicate Official(brand: Brand, root: string) {
    root == brand.official || root in brand.alternatives
  }

  /** Labels left out of the typosquat check: the last one, and com, co, ... before it, compared by value. */
  predicate Skipped(labels: seq<string>, i: nat)
    requires i < |labels|
  {
    var n := |labels|;
    || (n > 1 && labels[i] == labels[n - 1])
    || (n > 2 && labels[i] == labels[n - 2] && labels[i] in DOUBLE_TLDS)
  }

  function SkeletonLabel(view: View, i: nat): string
    requires i < |view.labels|
  {
    if i < |view.skeletonLabels| then view.skeletonLabels[i] else view.labels[i]
  }

  function TypoFinding(text: Text, view: View, brand: Brand, i: nat): Option<Finding>
    requires i < |view.labels|
  {
    var part, skeleton := view.labels[i], SkeletonLabel(view, i);
    if Skipped(view.labels, i) || Utf8Len(brand.name) < 4 || Utf8Len(skeleton) < 4 then None
    else if skeleton == brand.name && part != brand.name && view.homoglyphs then
      Some(HomoglyphSpoof(brand.name, part))
    else if 0 < D(Keyboard(text.lower), skeleton, brand.name) <= 3 then
      Some(KeyboardTypo(brand.name, part, skeleton != part))
    else if 0 < D(Unit, skeleton, brand.name) <= 2 then Some(ClassicTypo(brand.name, part))
    else None
  }

  function TyposFrom(text: Text, view: View, brand: Brand, i: nat): Option<Finding>
    requires i <= |view.labels|
    decreases |view.labels| - i
  {
    if i == |view.labels| then None
    else
      var here := TypoFinding(text, view, brand, i);
      if here.Some? then here else TyposFrom(text, view, brand, i + 1)
  }

  predicate MentionsBrand(view: View, brand: Brand) {
    Contains(view.root, brand.name) || Contains(view.skeletonRoot, brand.name)
  }

  predicate BrandSubdomain(view: View, brand: Brand, i: nat)
    requires i < |view.labels|
  {
    && i < |view.labels| - |Split(view.root)|
    && (Contains(view.labels[i], brand.name) || Contains(SkeletonLabel(view, i), brand.name))
  }

  function BrandFinding(text: Text, view: View, brand: Brand): Option<Finding> {
    if Official(brand, view.root) then None
    else if TyposFrom(text, view, brand, 0).Some? then TyposFrom(text, view, brand, 0)
    else if MentionsBrand(view, brand) then Some(KeywordMention(brand.name))
    else if exists i :: 0 <= i < |view.labels| && BrandSubdomain(view, brand, i) then Some(SubdomainUse(brand.name))
    else None
  }

  /** The finding of the first brand that has one. */
  function Scan(text: Text, view: View, brands: seq<Brand>): Option<Finding> {
    if brands == [] then None
    else
      var here := BrandFinding(text, view, brands[0]);
      if here.Some? then here else Scan(text, view, brands[1..])
  }

  function Penalty(view: View, finding: Finding, score: int): int {
    (if finding.SubdomainUse? then score - 10 else score) + (if view.tld in SUSPICIOUS_TLDS then 20 else 0)
  }

  function Spoofing(text: Text, brands: seq<Brand>, input: string): Option<Finding> {
    var domain := text.fold(input);
    if domain == "" || IsVietnamGovernmentRoot(text, GetRootDomain(text, domain)) then None
    else Scan(text, ViewOf(text, domain), brands)
  }

  // ---- The nested loops compute it ----

  lemma Equal(s: string)
    ensures Contains(s, s)
  {
    assert OccursAt(s, s, 0);
  }

  method CheckBrandSpoofing(text: Text, brands: seq<Brand>, input: string, score: int)
      returns (isSpoof: bool, finding: Option<Finding>, penalty: int)
    ensures finding == Spoofing(text, brands, input) && isSpoof == finding.Some?
    ensures penalty == if isSpoof then Penalty(ViewOf(text, text.fold(input)), finding.value, score) else 0
  {
    var domain := text.fold(input);
    if domain == "" {
      return false, None, 0;
    }
    var unicodeDomain := text.toUnicode(domain);
    var rootDomain := GetRootDomain(text, domain);
    if IsVietnamGovernmentRoot(text, rootDomain) {
      return false, None, 0;
    }
    var labels := Split(domain);
    var rootParts := Split(rootDomain);
    var tld := "";
    if |rootParts| > 1 {
      tld := rootParts[|rootParts| - 1];
    }
    var skeletonDomain := ToSkeleton(unicodeDomain);
    var skeletonRoot := ToSkeleton(GetRootDomain(text, unicodeDomain));
    var view := View(labels, Split(skeletonDomain), rootDomain, skeletonRoot, tld, skeletonDomain != unicodeDomain);
    assert view == ViewOf(text, domain);
    var extra := if tld in SUSPICIOUS_TLDS then 20 else 0;
    for b := 0 to |brands|
      invariant Scan(text, view, brands) == Scan(text, view, brands[b..])
    {
      var brand := brands[b];
      assert brands[b..][0] == brand && brands[b..][1..] == brands[b + 1..];
      if Official(brand, rootDomain) {
        continue;
      }
      finding := CheckLabels(text, view, brand);
      if finding.Some? {
        return true, finding, score + extra;
      }
      if Contains(rootDomain, brand.name) || Contains(skeletonRoot, brand.name) {
        return true, Some(KeywordMention(brand.name)), score + extra;
      }
      var abused := CheckSubdomains(view, brand);
      if abused {
        return true, Some(SubdomainUse(brand.name)), score - 10 + extra;
      }
    }
    return false, None, 0;
  }

  /** The typosquat loop over the labels, for one brand. */
  method CheckLabels(text: Text, view: View, brand: Brand) returns (finding: Option<Finding>)
    ensures finding == TyposFrom(text, view, brand, 0)
    ensures finding.Some? ==> !finding.value.SubdomainUse?
  {
    var labels := view.labels;
    for i := 0 to |labels|
      invariant TyposFrom(text, view, brand, 0) == TyposFrom(text, view, brand, i)
    {
      var part := labels[i];
      if |labels| > 1 && part == labels[|labels| - 1] {
        continue;
      }
      if |labels| > 2 && part == labels[|labels| - 2] && part in DOUBLE_TLDS {
        continue;
      }
      var skeleton := SkeletonLabel(view, i);
      var minLen := Utf8Len(brand.name);
      if Utf8Len(skeleton) < minLen {
        minLen := Utf8Len(skeleton);
      }
      if minLen < 4 {
        continue;
      }
      if skeleton == brand.name && part != brand.name && view.homoglyphs {
        return Some(HomoglyphSpoof(brand.name, part));
      }
      var weighted := WeightedLevenshteinDistance(text.lower, skeleton, brand.name);
      LeastWeightUnique(text.lower, skeleton, brand.name, weighted);
      if 0.0 < weighted <= 1.5 {
        return Some(KeyboardTypo(brand.name, part, skeleton != part));
      }
      var distance := LevenshteinDistance(skeleton, brand.name);
      LeastCostUnique(Unit, skeleton, brand.name, distance);
      if 0 < distance <= 2 {
        return Some(ClassicTypo(brand.name, part));
      }
    }
    return None;
  }

  method CheckSubdomains(view: View, brand: Brand) returns (abused: bool)
    ensures abused <==> exists i :: 0 <= i < |view.labels| && BrandSubdomain(view, brand, i)
  {
    for i := 0 to |view.labels|
      invariant forall k :: 0 <= k < i ==> !BrandSubdomain(view, brand, k)
    {
      var part, skeleton := view.labels[i], SkeletonLabel(view, i);
      if i < |view.labels| - |Split(view.root)| {
        Equal(brand.name);
        if part == brand.name || Contains(part, brand.name) ||
           skeleton == brand.name || Contains(skeleton, brand.name) {
          assert BrandSubdomain(view, brand, i);
          return true;
        }
      }
    }
    return false;
  }

  // ---- What a domain must look like to be reported ----

  lemma {:induction false} TypoFound(text: Text, view: View, brand: Brand, from: nat, i: nat)
    requires from <= i < |view.labels| && TypoFinding(text, view, brand, i).Some?
    ensures TyposFrom(text, view, brand, from).Some?
    decreases i - from
  {
    if from < i {
      TypoFound(text, view, brand, from + 1, i);
    }
  }

  lemma {:induction false} BrandFound(text: Text, view: View, brands: seq<Brand>, brand: Brand)
    requires brand in brands && BrandFinding(text, view, brand).Some?
    ensures Scan(text, view, brands).Some?
  {
    if brands[0] != brand {
      BrandFound(text, view, brands[1..], brand);
    }
  }

  /** text treats this name as plain: folding and decoding leave it and its root alone. */
  predicate PlainName(text: Text, domain: string) {
    && Ascii(domain) && domain != ""
    && text.fold(domain) == domain && text.toUnicode(domain) == domain
    && text.fold(GetRootDomain(text, domain)) == GetRootDomain(text, domain)
  }

  lemma {:induction false} AsciiLen(s: string)
    requires Ascii(s)
    ensures Utf8Len(s) == |s|
  {
    if s != "" {
      AsciiLen(s[1..]);
    }
  }

  lemma {:induction false} LabelsAreAscii(s: string)
    requires Ascii(s)
    ensures forall i :: 0 <= i < |Split(s)| ==> Ascii(Split(s)[i])
    decreases |s|
  {
    if '.' in s {
      LabelsAreAscii(s[DotIndex(s) + 1..]);
    }
  }

  lemma PlainView(text: Text, domain: string, i: nat)
    requires PlainName(text, domain) && i < |Split(domain)|
    ensures SkeletonLabel(ViewOf(text, domain), i) == Split(domain)[i]
    ensures Utf8Len(Split(domain)[i]) == |Split(domain)[i]|
  {
    SkeletonLaws(domain);
    LabelsAreAscii(domain);
    AsciiLen(Split(domain)[i]);
  }

  /** The parts of the root domain are the last parts of the domain. */
  lemma RootParts(text: Text, domain: string)
    requires text.fold(domain) == domain
    ensures var parts, root := Split(domain), Split(GetRootDomain(text, domain));
            |root| <= |parts| && root == parts[|parts| - |root|..]
  {
    var parts := Split(domain);
    var n := |parts|;
    if n > 2 {
      if parts[n - 2] in DOUBLE_TLDS && Utf8Len(parts[n - 1]) == 2 {
        SplitJoin(parts[n - 3..]);
      } else {
        SplitJoin(parts[n - 2..]);
      }
    }
  }

  lemma {:induction false} PartContained(parts: seq<string>, i: nat)
    requires i < |parts|
    ensures Contains(Join(parts), parts[i])
  {
    var whole := Join(parts);
    if i == 0 {
      assert OccursAt(whole, parts[0], 0);
    } else {
      PartContained(parts[1..], i - 1);
      var rest := Join(parts[1..]);
      var k :| 0 <= k <= |rest| - |parts[i]| && OccursAt(rest, parts[i], k);
      var shift := |parts[0]| + 1;
      assert whole == parts[0] + "." + rest;
      assert whole[shift + k..shift + k + |parts[i]|] == rest[k..k + |parts[i]|];
      assert OccursAt(whole, parts[i], shift + k);
    }
  }

  lemma MentionOrSubdomainFound(text: Text, view: View, brand: Brand)
    requires !Official(brand, view.root)
    requires MentionsBrand(view, brand) || exists i :: 0 <= i < |view.labels| && BrandSubdomain(view, brand, i)
    ensures BrandFinding(text, view, brand).Some?
  {
  }

  lemma RootContainsLabel(text: Text, domain: string, i: nat)
    requires text.fold(domain) == domain
    requires |Split(domain)| - |Split(GetRootDomain(text, domain))| <= i < |Split(domain)|
    ensures Contains(GetRootDomain(text, domain), Split(domain)[i])
  {
    RootParts(text, domain);
    var root := GetRootDomain(text, domain);
    PartContained(Split(root), i - (|Split(domain)| - |Split(root)|));
    JoinSplit(root);
  }

  /** A label that is exactly a brand's name is reported wherever it stands. */
  lemma ExactLabelFound(text: Text, domain: string, brand: Brand, i: nat)
    requires PlainName(text, domain) && i < |Split(domain)| && Split(domain)[i] == brand.name
    requires !Official(brand, GetRootDomain(text, domain))
    ensures BrandFinding(text, ViewOf(text, domain), brand).Some?
  {
    var view := ViewOf(text, domain);
    if i < |view.labels| - |Split(view.root)| {
      Equal(brand.name);
      assert BrandSubdomain(view, brand, i);
    } else {
      RootContainsLabel(text, domain, i);
    }
    MentionOrSubdomainFound(text, view, brand);
  }

  lemma {:induction false} UnitCostIsCount(script: Script, s: string)
    requires Applicable(script, s)
    ensures ScriptCost(Unit, script, s) <= |script|
    decreases |script|
  {
    if |script| > 0 {
      UnitCostIsCount(script[1..], script[0].Apply(s));
    }
  }

  /** Typosquat coverage: a plain domain outside gov.vn with a label at most two single-character edits from
      the name of a brand whose own domain this is not. Both must have four characters unless they are equal. */
  lemma TyposquatCoverage(text: Text, brands: seq<Brand>, domain: string, brand: Brand, i: nat, script: Script)
    requires PlainName(text, domain) && !IsVietnamGovernmentRoot(text, GetRootDomain(text, domain))
    requires brand in brands && !Official(brand, GetRootDomain(text, domain))
    requires i < |Split(domain)| && Rewrites(script, Split(domain)[i], brand.name) && |script| <= 2
    requires Split(domain)[i] == brand.name ||
             (!Skipped(Split(domain), i) && |Split(domain)[i]| >= 4 && Utf8Len(brand.name) >= 4)
    ensures Spoofing(text, brands, domain).Some?
  {
    var view, part := ViewOf(text, domain), Split(domain)[i];
    if part == brand.name {
      ExactLabelFound(text, domain, brand, i);
    } else {
      PlainView(text, domain, i);
      UnitCostIsCount(script, part);
      NoScriptIsCheaper(Unit, script, part);
      Identity(Unit, part, brand.name);
      TypoFound(text, view, brand, 0, i);
    }
    BrandFound(text, view, brands, brand);
  }

  lemma {:induction false} TypoIsClose(text: Text, view: View, brand: Brand, i: nat)
    requires i <= |view.labels| && TyposFrom(text, view, brand, i).Some?
    ensures var f := TyposFrom(text, view, brand, i).value;
      && f.brand == brand.name && !f.KeywordMention? && !f.SubdomainUse?
      && exists k :: i <= k < |view.labels| && !Skipped(view.labels, k) && f.part == view.labels[k]
           && D(Unit, SkeletonLabel(view, k), brand.name) <= 3
           && (f.HomoglyphSpoof? <==> SkeletonLabel(view, k) == brand.name)
    decreases |view.labels| - i
  {
    var here := TypoFinding(text, view, brand, i);
    if here.Some? {
      KeyboardWithinPlain(text.lower, SkeletonLabel(view, i), brand.name);
      Identity(Unit, SkeletonLabel(view, i), brand.name);
      Identity(Keyboard(text.lower), SkeletonLabel(view, i), brand.name);
    } else {
      TypoIsClose(text, view, brand, i + 1);
    }
  }

  /** The converse radius: a report names a trusted brand whose own domain this is not, and a typosquat report
      names a label whose skeleton is within three single-character edits of that brand. */
  lemma {:induction false} ReportsAreJustified(text: Text, view: View, brands: seq<Brand>)
    requires Scan(text, view, brands).Some?
    ensures var f := Scan(text, view, brands).value;
      exists brand :: brand in brands && f.brand == brand.name && !Official(brand, view.root)
        && (f.KeywordMention? ==> MentionsBrand(view, brand))
        && (f.SubdomainUse? ==> exists k :: 0 <= k < |view.labels| && BrandSubdomain(view, brand, k))
        && (!f.KeywordMention? && !f.SubdomainUse? ==>
              exists k :: 0 <= k < |view.labels| && f.part == view.labels[k]
                && D(Unit, SkeletonLabel(view, k), brand.name) <= 3)
  {
    var brand := brands[0];
    if BrandFinding(text, view, brand).Some? {
      if TyposFrom(text, view, brand, 0).Some? {
        TypoIsClose(text, view, brand, 0);
      }
      assert brand in brands;
    } else {
      ReportsAreJustified(text, view, brands[1..]);
    }
  }

  // ---- Exactly which plain domains are reported ----

  ghost predicate HasTypo(text: Text, view: View, brand: Brand) {
    exists i :: 0 <= i < |view.labels| && TypoFinding(text, view, brand, i).Some?
  }

  ghost predicate HasSubdomain(view: View, brand: Brand) {
    exists i :: 0 <= i < |view.labels| && BrandSubdomain(view, brand, i)
  }

  ghost predicate Reported(text: Text, view: View, brand: Brand) {
    && !Official(brand, view.root)
    && (HasTypo(text, view, brand) || MentionsBrand(view, brand) || HasSubdomain(view, brand))
  }

  lemma {:induction false} TypoWitness(text: Text, view: View, brand: Brand, from: nat) returns (i: nat)
    requires from <= |view.labels| && TyposFrom(text, view, brand, from).Some?
    ensures from <= i < |view.labels| && TypoFinding(text, view, brand, i).Some?
    decreases |view.labels| - from
  {
    if TypoFinding(text, view, brand, from).Some? {
      i := from;
    } else {
      i := TypoWitness(text, view, brand, from + 1);
    }
  }

  lemma TyposExactly(text: Text, view: View, brand: Brand)
    ensures TyposFrom(text, view, brand, 0).Some? <==> HasTypo(text, view, brand)
  {
    if TyposFrom(text, view, brand, 0).Some? {
      var i := TypoWitness(text, view, brand, 0);
    }
    if HasTypo(text, view, brand) {
      var i :| 0 <= i < |view.labels| && TypoFinding(text, view, brand, i).Some?;
      TypoFound(text, view, brand, 0, i);
    }
  }

  lemma BrandReportedExactly(text: Text, view: View, brand: Brand)
    ensures BrandFinding(text, view, brand).Some? <==> Reported(text, view, brand)
  {
    TyposExactly(text, view, brand);
  }

  /** The scan over all brands reports exactly when some brand is reported. */
  lemma {:induction false} ScanExactly(text: Text, view: View, brands: seq<Brand>)
    ensures Scan(text, view, brands).Some? <==> exists brand :: brand in brands && Reported(text, view, brand)
  {
    if brands != [] {
      BrandReportedExactly(text, view, brands[0]);
      ScanExactly(text, view, brands[1..]);
      assert forall b :: b in brands <==> b == brands[0] || b in brands[1..];
    }
  }

  /** A label, not a public suffix, close to a brand's name but different from it, both of at least four bytes:
      at most one and a half keyboard-weighted edits, or at most two plain ones. */
  ghost predicate LooksLike(text: Text, labels: seq<string>, brand: Brand, i: nat)
    requires i < |labels|
  {
    && !Skipped(labels, i) && |labels[i]| >= 4 && Utf8Len(brand.name) >= 4 && labels[i] != brand.name
    && (D(Keyboard(text.lower), labels[i], brand.name) <= 3 || D(Unit, labels[i], brand.name) <= 2)
  }

  /** What makes a plain domain suspicious for one brand: a label that looks like it, its name within the root
      domain, or its name within a label before the root domain. */
  ghost predicate Suspicious(text: Text, domain: string, brand: Brand) {
    var labels, root := Split(domain), GetRootDomain(text, domain);
    || (exists i :: 0 <= i < |labels| && LooksLike(text, labels, brand, i))
    || Contains(root, brand.name)
    || exists i :: 0 <= i < |labels| - |Split(root)| && Contains(labels[i], brand.name)
  }

  lemma SuffixIsAscii(domain: string, tail: string)
    requires Ascii(domain) && IsLabelSuffix(domain, tail)
    ensures Ascii(tail)
  {
    if tail != domain {
      assert ("." + tail)[1..] == tail;
    }
  }

  lemma RootIsAscii(text: Text, domain: string)
    requires Ascii(domain) && text.fold(domain) == domain
    ensures Ascii(GetRootDomain(text, domain))
  {
    var n := |Split(domain)|;
    if n > 2 {
      SuffixAt(domain, n - 2);
      SuffixAt(domain, n - 3);
      SuffixIsAscii(domain, GetRootDomain(text, domain));
    }
  }

  lemma PlainTypo(text: Text, domain: string, brand: Brand, i: nat)
    requires PlainName(text, domain) && i < |Split(domain)|
    ensures TypoFinding(text, ViewOf(text, domain), brand, i).Some? <==> LooksLike(text, Split(domain), brand, i)
  {
    PlainView(text, domain, i);
    SkeletonLaws(domain);
    Identity(Unit, Split(domain)[i], brand.name);
    Identity(Keyboard(text.lower), Split(domain)[i], brand.name);
  }

  lemma PlainReported(text: Text, domain: string, brand: Brand)
    requires PlainName(text, domain)
    ensures Reported(text, ViewOf(text, domain), brand) <==>
            !Official(brand, GetRootDomain(text, domain)) && Suspicious(text, domain, brand)
  {
    var view := ViewOf(text, domain);
    RootIsAscii(text, domain);
    SkeletonLaws(view.root);
    forall i | 0 <= i < |view.labels|
      ensures TypoFinding(text, view, brand, i).Some? <==> LooksLike(text, view.labels, brand, i)
      ensures SkeletonLabel(view, i) == view.labels[i]
    {
      PlainTypo(text, domain, brand, i);
      PlainView(text, domain, i);
    }
    assert HasSubdomain(view, brand) <==>
           exists i :: 0 <= i < |view.labels| - |Split(view.root)| && Contains(view.labels[i], brand.name) by {
      if HasSubdomain(view, brand) {
        var i :| 0 <= i < |view.labels| && BrandSubdomain(view, brand, i);
        assert Contains(view.labels[i], brand.name);
      }
      forall i | 0 <= i < |view.labels| - |Split(view.root)| && Contains(view.labels[i], brand.name)
        ensures HasSubdomain(view, brand)
      {
        assert BrandSubdomain(view, brand, i);
      }
    }
  }

  /** A plain domain is reported if and only if it is outside gov.vn and suspicious for some brand whose own domain
      it is not. */
  lemma ReportedExactly(text: Text, brands: seq<Brand>, domain: string)
    requires PlainName(text, domain)
    ensures Spoofing(text, brands, domain).Some? <==>
            && !IsVietnamGovernmentRoot(text, GetRootDomain(text, domain))
            && exists brand :: brand in brands && !Official(brand, GetRootDomain(text, domain))
                               && Suspicious(text, domain, brand)
  {
    ScanExactly(text, ViewOf(text, domain), brands);
    forall brand
      ensures Reported(text, ViewOf(text, domain), brand) <==>
              !Official(brand, GetRootDomain(text, domain)) && Suspicious(text, domain, brand)
    {
      PlainReported(text, domain, brand);
    }
  }

  /** So a domain that is official for one trusted brand is reported if and only if it is suspicious for another. */
  lemma OfficialReportedExactly(text: Text, brand: Brand, domain: string)
    requires PlainName(text, domain) && brand in TRUSTED_BRANDS && Official(brand, GetRootDomain(text, domain))
    ensures Spoofing(text, TRUSTED_BRANDS, domain).Some? <==>
            && !IsVietnamGovernmentRoot(text, GetRootDomain(text, domain))
            && exists other :: other in TRUSTED_BRANDS && other != brand
                 && !Official(other, GetRootDomain(text, domain)) && Suspicious(text, domain, other)
  {
    ReportedExactly(text, TRUSTED_BRANDS, domain);
  }

  /** Replacing the first two characters. */
  lemma TwoReplacements(part: string, name: string) returns (script: Script)
    requires |part| == |name| >= 2 && part[2..] == name[2..]
    ensures Rewrites(script, part, name) && |script| == 2
  {
    var first, second := Replace(0, name[0]), Replace(1, name[1]);
    var half := first.Apply(part);
    assert half == [name[0]] + part[1..] && half[2..] == part[2..];
    assert second.Apply(half) == half[..1] + [name[1]] + half[2..] == name;
    ConsScript(Unit, second, [], half);
    ConsScript(Unit, first, [second], part);
    script := [first] + [second];
    assert [second] + [] == [second];
  }

  /** Brands named by two letters and "bank" all look like each other: whoever owns the domain, a label of that form
      is reported for every such brand whose own domain it is not. */
  lemma TwoLetterBanksCollide(text: Text, brands: seq<Brand>, domain: string, brand: Brand, i: nat)
    requires PlainName(text, domain) && !IsVietnamGovernmentRoot(text, GetRootDomain(text, domain))
    requires brand in brands && !Official(brand, GetRootDomain(text, domain)) && Ascii(brand.name)
    requires i < |Split(domain)| && !Skipped(Split(domain), i)
    requires |Split(domain)[i]| == |brand.name| == 6 && Split(domain)[i][2..] == brand.name[2..] == "bank"
    ensures Spoofing(text, brands, domain).Some?
  {
    var script := TwoReplacements(Split(domain)[i], brand.name);
    AsciiLen(brand.name);
    TyposquatCoverage(text, brands, domain, brand, i, script);
  }

  lemma VpbankParts()
    ensures Split("vpbank.com.vn") == ["vpbank", "com", "vn"]
  {
    SplitJoin(["vn"]);
    SplitJoin(["com", "vn"]);
    assert ["com", "vn"][1..] == ["vn"];
    assert Join(["com", "vn"]) == "com.vn";
    assert ["vpbank", "com", "vn"][1..] == ["com", "vn"];
    assert Join(["vpbank", "com", "vn"]) == "vpbank.com.vn";
    SplitJoin(["vpbank", "com", "vn"]);
  }

  /** A name of three labels under a two-letter country code and a com-like label is its own root. */
  lemma RootOfThree(text: Text, domain: string)
    requires text.fold(domain) == domain && |Split(domain)| == 3
    requires Split(domain)[1] in DOUBLE_TLDS && Utf8Len(Split(domain)[2]) == 2
    ensures GetRootDomain(text, domain) == domain
  {
    JoinSplit(domain);
    assert Split(domain)[0..] == Split(domain);
  }

  lemma ComIsDouble()
    ensures "com" in DOUBLE_TLDS
  {
    assert DOUBLE_TLDS[0] == "com";
  }

  lemma VpbankIsNotGov(text: Text, domain: string)
    requires domain == "vpbank.com.vn" && text.fold(domain) == domain
    ensures !IsVietnamGovernmentRoot(text, domain)
  {
    assert domain[0] != "gov.vn"[0];
    assert domain[6..] == ".com.vn";
    assert ".com.vn"[1] != ".gov.vn"[1];
  }

  lemma VpbankRoot(text: Text, domain: string)
    requires domain == "vpbank.com.vn" && text.fold(domain) == domain
    ensures Split(domain) == ["vpbank", "com", "vn"] && GetRootDomain(text, domain) == domain
  {
    VpbankParts();
    ComIsDouble();
    AsciiLen("vn");
    RootOfThree(text, domain);
  }

  lemma VpbankIsNotTpbank(part: string, brand: Brand)
    requires part == "vpbank" && brand == Brand("tpbank", "tpb.vn", ["tpbank.com.vn"])
    ensures !Official(brand, "vpbank.com.vn") && !Skipped([part, "com", "vn"], 0)
    ensures |part| == |brand.name| == 6 && part[2..] == brand.name[2..] == "bank" && Ascii(brand.name)
  {
    assert "vpbank.com.vn"[0] != "tpb.vn"[0] && "vpbank.com.vn"[0] != "tpbank.com.vn"[0];
  }

  /** Brands are also compared with each other's names: vpbank.com.vn is reported although it is the official
      domain of a trusted brand, because vpbank is one edit away from the trusted brand tpbank. */
  lemma OfficialBankDomainIsReported(text: Text, brands: seq<Brand>, domain: string)
    requires domain == "vpbank.com.vn" && PlainName(text, domain)
    requires Brand("tpbank", "tpb.vn", ["tpbank.com.vn"]) in brands
    ensures Official(Brand("vpbank", "vpbank.com.vn", ["vpbank.com"]), GetRootDomain(text, domain))
    ensures Spoofing(text, brands, domain).Some?
  {
    VpbankRoot(text, domain);
    VpbankIsNotGov(text, domain);
    var tpbank := Brand("tpbank", "tpb.vn", ["tpbank.com.vn"]);
    VpbankIsNotTpbank(Split(domain)[0], tpbank);
    TwoLetterBanksCollide(text, brands, domain, tpbank, 0);
  }

  lemma BankBrandsAreTrusted()
    ensures Brand("vpbank", "vpbank.com.vn", ["vpbank.com"]) in TRUSTED_BRANDS
    ensures Brand("tpbank", "tpb.vn", ["tpbank.com.vn"]) in TRUSTED_BRANDS
  {
    assert TRUSTED_BRANDS[25] == Brand("vpbank", "vpbank.com.vn", ["vpbank.com"]);
    assert TRUSTED_BRANDS[28] == Brand("tpbank", "tpb.vn", ["tpbank.com.vn"]);
  }
}
