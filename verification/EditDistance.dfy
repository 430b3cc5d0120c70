/** Edit distance as the least cost of rewriting one rune sequence into another, and the metric laws.

    Costs are counted in integer units. LevenshteinDistance uses one unit per edit; the keyboard-weighted
    distance uses half units: an insertion or deletion costs 2, a substitution 1 or 2. */
module EditDistance {
  import opened Wrappers


  /** lower stands for unicode.ToLower; every result below holds for any such function. */
  datatype Costs = Unit | Keyboard(lower: char -> char)
  {
    function Indel(): nat {
      if Unit? then 1 else 2
    }

    function Substitute(a: char, b: char): nat {
      if a == b then 0
      else match this
        case Unit => 1
        case Keyboard(lower) =>
          if lower(b) in Neighbours(lower(a)) || lower(a) in Neighbours(lower(b)) then 1 else 2
    }
  }

  /** The keyboard adjacency table; it lists some pairs in one direction only. */
  function Neighbours(c: char): set<char> {
    match c
    case 'a' => {'q', 'w', 's', 'z'}
    case 'b' => {'v', 'g', 'h', 'n'}
    case 'c' => {'x', 'd', 'f', 'v'}
    case 'd' => {'e', 'r', 's', 'f', 'x', 'c'}
    case 'e' => {'w', 's', 'd', 'r', '3', '4'}
    case 'f' => {'r', 't', 'g', 'v', 'c', 'd'}
    case 'g' => {'t', 'y', 'h', 'b', 'v', 'f'}
    case 'h' => {'y', 'u', 'j', 'n', 'b', 'g'}
    case 'i' => {'u', 'j', 'k', 'o', '8', '9'}
    case 'j' => {'u', 'i', 'k', 'm', 'n', 'h'}
    case 'k' => {'i', 'j', 'l', 'm', '0', '9'}
    case 'l' => {'o', 'k', 'p'}
    case 'm' => {'n', 'j', 'k'}
    case 'n' => {'b', 'h', 'j', 'm'}
    case 'o' => {'i', 'k', 'l', 'p', '9', '0'}
    case 'p' => {'o', 'l', '0'}
    case 'q' => {'w', '1', '2', 'a'}
    case 'r' => {'e', 'd', 'f', 't', '4', '5'}
    case 's' => {'w', 'e', 'd', 'x', 'z', 'a'}
    case 't' => {'r', 'f', 'g', 'y', '5', '6'}
    case 'u' => {'y', 'h', 'j', 'i', '7', '8'}
    case 'v' => {'c', 'f', 'g', 'b'}
    case 'w' => {'q', 'a', 's', 'e', '2', '3'}
    case 'x' => {'z', 's', 'd', 'c'}
    case 'y' => {'t', 'g', 'h', 'u', '6', '7'}
    case 'z' => {'a', 's', 'x'}
    case _ => {}
  }

  // ---- Edit scripts: the meaning of "distance" ----

  /** One single-character edit at a position of the current string. */
  datatype Edit = Insert(at: nat, c: char) | Delete(at: nat) | Replace(at: nat, c: char)
  {
    predicate Fits(s: string) {
      if Insert? then at <= |s| else at < |s|
    }

    function Apply(s: string): string
      requires Fits(s)
    {
      match this
      case Insert(at, c) => s[..at] + [c] + s[at..]
      case Delete(at) => s[..at] + s[at + 1..]
      case Replace(at, c) => s[..at] + [c] + s[at + 1..]
    }

    function Cost(w: Costs, s: string): nat
      requires Fits(s)
    {
      match this
      case Insert(_, _) => w.Indel()
      case Delete(_) => w.Indel()
      case Replace(at, c) => w.Substitute(s[at], c)
    }
  }

  type Script = seq<Edit>

  predicate Applicable(script: Script, s: string) {
    |script| == 0 || (script[0].Fits(s) && Applicable(script[1..], script[0].Apply(s)))
  }

  function RunScript(script: Script, s: string): string
    requires Applicable(script, s)
  {
    if |script| == 0 then s else RunScript(script[1..], script[0].Apply(s))
  }

  function ScriptCost(w: Costs, script: Script, s: string): nat
    requires Applicable(script, s)
  {
    if |script| == 0 then 0 else script[0].Cost(w, s) + ScriptCost(w, script[1..], script[0].Apply(s))
  }

  predicate Rewrites(script: Script, s: string, t: string) {
    Applicable(script, s) && RunScript(script, s) == t
  }

  /** d is the least cost of any script that rewrites s into t. */
  ghost predicate IsLeastCost(w: Costs, s: string, t: string, d: nat) {
    && (exists script :: Rewrites(script, s, t) && ScriptCost(w, script, s) == d)
    && (forall script :: Rewrites(script, s, t) ==> d <= ScriptCost(w, script, s))
  }

  // ---- The recurrence on last characters ----

  function Min(a: nat, b: nat): nat {
    if a < b then a else b
  }

  function Init(s: string): string
    requires s != ""
  {
    s[..|s| - 1]
  }

  function Last(s: string): char
    requires s != ""
  {
    s[|s| - 1]
  }

  function D(w: Costs, s: string, t: string): nat
    decreases |s| + |t|
  {
    if s == "" && t == "" then 0
    else if s == "" then D(w, s, Init(t)) + w.Indel()
    else if t == "" then D(w, Init(s), t) + w.Indel()
    else Min(Min(D(w, Init(s), t) + w.Indel(), D(w, s, Init(t)) + w.Indel()),
             D(w, Init(s), Init(t)) + w.Substitute(Last(s), Last(t)))
  }

  lemma {:induction false} FromEmpty(w: Costs, s: string)
    ensures D(w, "", s) == |s| * w.Indel() && D(w, s, "") == |s| * w.Indel()
    decreases |s|
  {
    if s != "" {
      FromEmpty(w, Init(s));
    }
  }

  // ---- Metric laws ----

  lemma {:induction false} Identity(w: Costs, s: string, t: string)
    ensures D(w, s, t) == 0 <==> s == t
    decreases |s| + |t|
  {
    if s != "" && t != "" {
      Identity(w, Init(s), Init(t));
      assert s == Init(s) + [Last(s)];
      assert t == Init(t) + [Last(t)];
    }
  }

  lemma {:induction false} Symmetric(w: Costs, s: string, t: string)
    ensures D(w, s, t) == D(w, t, s)
    decreases |s| + |t|
  {
    if s != "" {
      Symmetric(w, Init(s), t);
    }
    if t != "" {
      Symmetric(w, s, Init(t));
    }
    if s != "" && t != "" {
      Symmetric(w, Init(s), Init(t));
    }
  }

  lemma SubstituteTriangle(w: Costs, a: char, b: char, c: char)
    ensures w.Substitute(a, c) <= w.Substitute(a, b) + w.Substitute(b, c)
    ensures w.Substitute(a, b) <= 2 * w.Indel()
  {
  }

  /** Upper bounds of D by each single last step; the only facts about D's minimum the triangle needs. */
  lemma StepBounds(w: Costs, s: string, t: string)
    ensures s != "" ==> D(w, s, t) <= D(w, Init(s), t) + w.Indel()
    ensures t != "" ==> D(w, s, t) <= D(w, s, Init(t)) + w.Indel()
    ensures s != "" && t != "" ==> D(w, s, t) <= D(w, Init(s), Init(t)) + w.Substitute(Last(s), Last(t))
  {
  }

  lemma {:induction false} Triangle(w: Costs, a: string, b: string, c: string)
    ensures D(w, a, c) <= D(w, a, b) + D(w, b, c)
    decreases |a| + |b| + |c|
  {
    StepBounds(w, a, c);
    if a != "" && D(w, a, b) == D(w, Init(a), b) + w.Indel() {
      Triangle(w, Init(a), b, c);
    } else if c != "" && D(w, b, c) == D(w, b, Init(c)) + w.Indel() {
      Triangle(w, a, b, Init(c));
    } else if b != "" && D(w, a, b) == D(w, a, Init(b)) + w.Indel() {
      if D(w, b, c) == D(w, Init(b), c) + w.Indel() {
        Triangle(w, a, Init(b), c);
      } else {
        Triangle(w, a, Init(b), Init(c));
      }
    } else if b != "" {
      SubstituteTriangle(w, Last(a), Last(b), if c == "" then Last(b) else Last(c));
      if D(w, b, c) == D(w, Init(b), c) + w.Indel() {
        Triangle(w, Init(a), Init(b), c);
      } else {
        Triangle(w, Init(a), Init(b), Init(c));
      }
    }
  }

  // ---- D is below the cost of every script ----

  lemma {:induction false} CommonSuffix(w: Costs, s: string, t: string, tail: string)
    ensures D(w, s + tail, t + tail) <= D(w, s, t)
    decreases |tail|
  {
    if tail == "" {
      assert s + tail == s && t + tail == t;
    } else {
      CommonSuffix(w, s, t, Init(tail));
      assert Init(s + tail) == s + Init(tail);
      assert Init(t + tail) == t + Init(tail);
      StepBounds(w, s + tail, t + tail);
    }
  }

  /** Inserting, deleting or replacing one character between a head and a tail. */
  lemma OneCharacter(w: Costs, head: string, a: char, b: char, tail: string)
    ensures D(w, head + tail, head + [b] + tail) <= w.Indel()
    ensures D(w, head + [a] + tail, head + tail) <= w.Indel()
    ensures D(w, head + [a] + tail, head + [b] + tail) <= w.Substitute(a, b)
  {
    assert Init(head + [a]) == head && Init(head + [b]) == head;
    Identity(w, head, head);
    StepBounds(w, head, head + [b]);
    CommonSuffix(w, head, head + [b], tail);
    StepBounds(w, head + [a], head);
    CommonSuffix(w, head + [a], head, tail);
    StepBounds(w, head + [a], head + [b]);
    CommonSuffix(w, head + [a], head + [b], tail);
  }

  lemma OneEdit(w: Costs, e: Edit, s: string)
    requires e.Fits(s)
    ensures D(w, s, e.Apply(s)) <= e.Cost(w, s)
  {
    match e
    case Insert(at, c) =>
      assert s == s[..at] + s[at..];
      OneCharacter(w, s[..at], c, c, s[at..]);
    case Delete(at) =>
      assert s == s[..at] + [s[at]] + s[at + 1..];
      OneCharacter(w, s[..at], s[at], s[at], s[at + 1..]);
    case Replace(at, c) =>
      assert s == s[..at] + [s[at]] + s[at + 1..];
      OneCharacter(w, s[..at], s[at], c, s[at + 1..]);
  }

  lemma {:induction false} NoScriptIsCheaper(w: Costs, script: Script, s: string)
    requires Applicable(script, s)
    ensures D(w, s, RunScript(script, s)) <= ScriptCost(w, script, s)
    decreases |script|
  {
    if |script| == 0 {
      Identity(w, s, s);
    } else {
      var next := script[0].Apply(s);
      OneEdit(w, script[0], s);
      NoScriptIsCheaper(w, script[1..], next);
      Triangle(w, s, next, RunScript(script, s));
    }
  }

  // ---- Some script costs exactly D ----

  /** Edits that fit a string do the same work, at the same price, in front of any tail. */
  lemma {:induction false} ScriptInFront(w: Costs, script: Script, s: string, tail: string)
    requires Applicable(script, s)
    ensures Applicable(script, s + tail)
    ensures RunScript(script, s + tail) == RunScript(script, s) + tail
    ensures ScriptCost(w, script, s + tail) == ScriptCost(w, script, s)
    decreases |script|
  {
    if |script| > 0 {
      var e := script[0];
      assert e.Apply(s + tail) == e.Apply(s) + tail;
      ScriptInFront(w, script[1..], e.Apply(s), tail);
    }
  }

  /** Prefixing one edit to a script. */
  lemma ConsScript(w: Costs, e: Edit, script: Script, s: string)
    requires e.Fits(s) && Applicable(script, e.Apply(s))
    ensures Applicable([e] + script, s)
    ensures RunScript([e] + script, s) == RunScript(script, e.Apply(s))
    ensures ScriptCost(w, [e] + script, s) == e.Cost(w, s) + ScriptCost(w, script, e.Apply(s))
  {
    assert ([e] + script)[1..] == script;
  }

  /** A script that ends in t's prefix, run in front of t's last character. */
  lemma ThenLast(w: Costs, e: Edit, rest: Script, s: string, middle: string, t: string) returns (script: Script)
    requires t != "" && e.Fits(s) && e.Apply(s) == middle + [Last(t)]
    requires Rewrites(rest, middle, Init(t))
    ensures Rewrites(script, s, t)
    ensures ScriptCost(w, script, s) == e.Cost(w, s) + ScriptCost(w, rest, middle)
  {
    ScriptInFront(w, rest, middle, [Last(t)]);
    assert Init(t) + [Last(t)] == t;
    ConsScript(w, e, rest, s);
    script := [e] + rest;
  }

  /** A script from s without its last character, after deleting that character. */
  lemma AfterDelete(w: Costs, rest: Script, s: string, t: string) returns (script: Script)
    requires s != "" && Rewrites(rest, Init(s), t)
    ensures Rewrites(script, s, t)
    ensures ScriptCost(w, script, s) == w.Indel() + ScriptCost(w, rest, Init(s))
  {
    var e := Delete(|s| - 1);
    assert e.Apply(s) == Init(s);
    ConsScript(w, e, rest, s);
    script := [e] + rest;
  }

  lemma NoEdits(w: Costs, s: string) returns (script: Script)
    ensures Rewrites(script, s, s) && ScriptCost(w, script, s) == 0
  {
    script := [];
  }

  lemma {:induction false} CheapestScript(w: Costs, s: string, t: string) returns (script: Script)
    ensures Rewrites(script, s, t) && ScriptCost(w, script, s) <= D(w, s, t)
    decreases |s| + |t|
  {
    if s == "" && t == "" {
      script := NoEdits(w, s);
    } else if s != "" && D(w, s, t) == D(w, Init(s), t) + w.Indel() {
      var rest := CheapestScript(w, Init(s), t);
      script := AfterDelete(w, rest, s, t);
    } else if t != "" && D(w, s, t) == D(w, s, Init(t)) + w.Indel() {
      var rest := CheapestScript(w, s, Init(t));
      script := ThenLast(w, Insert(|s|, Last(t)), rest, s, s, t);
    } else {
      assert D(w, s, t) == D(w, Init(s), Init(t)) + w.Substitute(Last(s), Last(t));
      var rest := CheapestScript(w, Init(s), Init(t));
      script := ThenLast(w, Replace(|s| - 1, Last(t)), rest, s, Init(s), t);
    }
  }

  /** The recurrence computes the least script cost. */
  lemma RecurrenceIsLeastCost(w: Costs, s: string, t: string)
    ensures IsLeastCost(w, s, t, D(w, s, t))
  {
    var best := CheapestScript(w, s, t);
    NoScriptIsCheaper(w, best, s);
    forall script | Rewrites(script, s, t)
      ensures D(w, s, t) <= ScriptCost(w, script, s)
    {
      NoScriptIsCheaper(w, script, s);
    }
  }

  /** The least cost is unique, so a method that returns it returns D. */
  lemma LeastCostUnique(w: Costs, s: string, t: string, d: nat)
    requires IsLeastCost(w, s, t, d)
    ensures d == D(w, s, t)
  {
    RecurrenceIsLeastCost(w, s, t);
  }

  /** The metric laws, stated of the least script cost itself. */
  lemma LeastCostIsAMetric(w: Costs, a: string, b: string, c: string, ab: nat, ba: nat, bc: nat, ac: nat)
    requires IsLeastCost(w, a, b, ab) && IsLeastCost(w, b, a, ba)
    requires IsLeastCost(w, b, c, bc) && IsLeastCost(w, a, c, ac)
    ensures ab == 0 <==> a == b
    ensures ab == ba
    ensures ac <= ab + bc
  {
    LeastCostUnique(w, a, b, ab);
    LeastCostUnique(w, b, a, ba);
    LeastCostUnique(w, b, c, bc);
    LeastCostUnique(w, a, c, ac);
    Identity(w, a, b);
    Symmetric(w, a, b);
    Triangle(w, a, b, c);
  }

  /** Keyboard weights never make a pair look farther than twice its plain distance, nor nearer than once. */
  lemma {:induction false} KeyboardWithinPlain(lower: char -> char, s: string, t: string)
    ensures D(Unit, s, t) <= D(Keyboard(lower), s, t) <= 2 * D(Unit, s, t)
    decreases |s| + |t|
  {
    if s != "" {
      KeyboardWithinPlain(lower, Init(s), t);
    }
    if t != "" {
      KeyboardWithinPlain(lower, s, Init(t));
    }
    if s != "" && t != "" {
      KeyboardWithinPlain(lower, Init(s), Init(t));
    }
  }

  /** A float64 distance that is the least cost, counted in half units. */
  ghost predicate IsLeastWeight(lower: char -> char, s: string, t: string, distance: real) {
    exists halves :: distance == halves as real / 2.0 && IsLeastCost(Keyboard(lower), s, t, halves)
  }

  lemma LeastWeightUnique(lower: char -> char, s: string, t: string, distance: real)
    requires IsLeastWeight(lower, s, t, distance)
    ensures distance == D(Keyboard(lower), s, t) as real / 2.0
  {
    var halves :| distance == halves as real / 2.0 && IsLeastCost(Keyboard(lower), s, t, halves);
    LeastCostUnique(Keyboard(lower), s, t, halves);
  }

  // ---- What single edits are worth ----

  /** The row of a key, counted from the digits; None for what is not a letter or digit key. */
  function Row(c: char): Option<int> {
    if '0' <= c <= '9' then Some(0)
    else if c in {'q', 'w', 'e', 'r', 't', 'y', 'u', 'i', 'o', 'p'} then Some(1)
    else if c in {'a', 's', 'd', 'f', 'g', 'h', 'j', 'k', 'l'} then Some(2)
    else if c in {'z', 'x', 'c', 'v', 'b', 'n', 'm'} then Some(3)
    else None
  }

  /** How far to the right a key stands, in half keys: every row is shifted by half a key against the one above. */
  function Place(c: char): int {
    match c
    case '1' => 0 case '2' => 2 case '3' => 4 case '4' => 6 case '5' => 8
    case '6' => 10 case '7' => 12 case '8' => 14 case '9' => 16 case '0' => 18
    case 'q' => 1 case 'w' => 3 case 'e' => 5 case 'r' => 7 case 't' => 9
    case 'y' => 11 case 'u' => 13 case 'i' => 15 case 'o' => 17 case 'p' => 19
    case 'a' => 2 case 's' => 4 case 'd' => 6 case 'f' => 8 case 'g' => 10
    case 'h' => 12 case 'j' => 14 case 'k' => 16 case 'l' => 18
    case 'z' => 3 case 'x' => 5 case 'c' => 7 case 'v' => 9 case 'b' => 11
    case 'n' => 13 case 'm' => 15
    case _ => 0
  }

  function Apart(a: int, b: int): int {
    if a < b then b - a else a - b
  }

  /** Keys that touch: side by side, two digits excepted, or half a key apart in rows next to each other; and k with
      9 and 0, which the table has in addition. */
  predicate NeighbouringKeys(a: char, b: char) {
    || (Row(a).Some? && Row(b).Some? && Row(a) == Row(b) && Row(a).value > 0 && Apart(Place(a), Place(b)) == 2)
    || (Row(a).Some? && Row(b).Some? && Apart(Row(a).value, Row(b).value) == 1 && Apart(Place(a), Place(b)) == 1)
    || (a == 'k' && (b == '9' || b == '0'))
    || (b == 'k' && (a == '9' || a == '0'))
  }

  /** The table lists exactly the keys that touch, except that k does not list o. */
  lemma TopLeft(a: char, b: char)
    requires a in {'q', 'w', 'e'}
    ensures b in Neighbours(a) <==> NeighbouringKeys(a, b) && !(a == 'k' && b == 'o')
  {
  }

  lemma TopMiddle(a: char, b: char)
    requires a in {'r', 't', 'y'}
    ensures b in Neighbours(a) <==> NeighbouringKeys(a, b) && !(a == 'k' && b == 'o')
  {
  }

  lemma TopRight(a: char, b: char)
    requires a in {'u', 'i', 'o', 'p'}
    ensures b in Neighbours(a) <==> NeighbouringKeys(a, b) && !(a == 'k' && b == 'o')
  {
  }

  lemma HomeLeft(a: char, b: char)
    requires a in {'a', 's', 'd', 'f'}
    ensures b in Neighbours(a) <==> NeighbouringKeys(a, b) && !(a == 'k' && b == 'o')
  {
  }

  lemma HomeMiddle(a: char, b: char)
    requires a in {'g', 'h'}
    ensures b in Neighbours(a) <==> NeighbouringKeys(a, b) && !(a == 'k' && b == 'o')
  {
  }

  lemma HomeRight(a: char, b: char)
    requires a in {'j', 'k', 'l'}
    ensures b in Neighbours(a) <==> NeighbouringKeys(a, b) && !(a == 'k' && b == 'o')
  {
  }

  lemma BottomLeft(a: char, b: char)
    requires a in {'z', 'x'}
    ensures b in Neighbours(a) <==> NeighbouringKeys(a, b) && !(a == 'k' && b == 'o')
  {
  }

  lemma BottomMiddle(a: char, b: char)
    requires a in {'c', 'v'}
    ensures b in Neighbours(a) <==> NeighbouringKeys(a, b) && !(a == 'k' && b == 'o')
  {
  }

  lemma BottomRight(a: char, b: char)
    requires a in {'b', 'n', 'm'}
    ensures b in Neighbours(a) <==> NeighbouringKeys(a, b) && !(a == 'k' && b == 'o')
  {
  }

  lemma LetterRow(a: char, b: char)
    requires 'a' <= a <= 'z'
    ensures b in Neighbours(a) <==> NeighbouringKeys(a, b) && !(a == 'k' && b == 'o')
  {
    if a in {'q', 'w', 'e'} {
      TopLeft(a, b);
    } else if a in {'r', 't', 'y'} {
      TopMiddle(a, b);
    } else if a in {'u', 'i', 'o', 'p'} {
      TopRight(a, b);
    } else if a in {'a', 's', 'd', 'f'} {
      HomeLeft(a, b);
    } else if a in {'g', 'h'} {
      HomeMiddle(a, b);
    } else if a in {'j', 'k', 'l'} {
      HomeRight(a, b);
    } else if a in {'z', 'x'} {
      BottomLeft(a, b);
    } else if a in {'c', 'v'} {
      BottomMiddle(a, b);
    } else {
      BottomRight(a, b);
    }
  }

  lemma KeysTouchBothWays(a: char, b: char)
    ensures NeighbouringKeys(a, b) <==> NeighbouringKeys(b, a)
  {
  }

  lemma OnlyLettersList(a: char, b: char)
    requires !('a' <= a <= 'z')
    ensures Neighbours(a) == {} && (!('a' <= b <= 'z') ==> !NeighbouringKeys(a, b))
  {
  }

  /** Read in both directions it lists exactly the keys that touch. */
  lemma TableIsKeyboard(a: char, b: char)
    ensures b in Neighbours(a) || a in Neighbours(b) <==> NeighbouringKeys(a, b)
  {
    KeysTouchBothWays(a, b);
    if 'a' <= a <= 'z' {
      LetterRow(a, b);
    } else {
      OnlyLettersList(a, b);
    }
    if 'a' <= b <= 'z' {
      LetterRow(b, a);
    } else {
      OnlyLettersList(b, a);
    }
  }

  /** Scripts that cost nothing change nothing. */
  lemma {:induction false} FreeScript(w: Costs, script: Script, s: string)
    requires Applicable(script, s) && ScriptCost(w, script, s) == 0
    ensures RunScript(script, s) == s
    decreases |script|
  {
    if |script| > 0 {
      assert script[0].Apply(s) == s;
      FreeScript(w, script[1..], s);
    }
  }

  /** t is s with one character replaced at the price of one unit. */
  ghost predicate OneUnitApart(w: Costs, s: string, t: string) {
    |s| == |t| && exists i :: 0 <= i < |s| && DiffersAt(w, s, t, i)
  }

  ghost predicate DiffersAt(w: Costs, s: string, t: string, i: nat)
    requires i < |s| == |t|
  {
    w.Substitute(s[i], t[i]) == 1 && forall k :: 0 <= k < |s| && k != i ==> s[k] == t[k]
  }

  /** With keyboard costs, a script of one half unit is one cheap replacement. */
  lemma {:induction false} HalfUnitScript(w: Costs, script: Script, s: string)
    requires w.Keyboard? && Applicable(script, s) && ScriptCost(w, script, s) == 1
    ensures OneUnitApart(w, s, RunScript(script, s))
    decreases |script|
  {
    var next := script[0].Apply(s);
    if script[0].Cost(w, s) == 0 {
      assert next == s;
      HalfUnitScript(w, script[1..], s);
    } else {
      FreeScript(w, script[1..], next);
      assert DiffersAt(w, s, next, script[0].at);
    }
  }

  lemma HalfUnitDistance(w: Costs, s: string, t: string)
    requires w.Keyboard? && D(w, s, t) == 1
    ensures OneUnitApart(w, s, t)
  {
    var script := CheapestScript(w, s, t);
    NoScriptIsCheaper(w, script, s);
    HalfUnitScript(w, script, s);
  }

  lemma ReplacementCost(w: Costs, head: string, a: char, b: char, tail: string)
    requires a != b
    ensures D(w, head + [a] + tail, head + [b] + tail) == w.Substitute(a, b)
  {
    var s, t := head + [a] + tail, head + [b] + tail;
    assert s[|head|] == a && t[|head|] == b;
    OneCharacter(w, head, a, b, tail);
    Identity(w, s, t);
    if w.Keyboard? && D(w, s, t) == 1 {
      HalfUnitDistance(w, s, t);
    }
  }

  /** Replacing one character costs a half where the two keys touch, and a whole where they do not, in the middle of
      any name; lower is what the loop applies to both before it looks at the keyboard. */
  lemma ReplacementWeight(lower: char -> char, head: string, a: char, b: char, tail: string, distance: real)
    requires a != b && IsLeastWeight(lower, head + [a] + tail, head + [b] + tail, distance)
    ensures distance == if NeighbouringKeys(lower(a), lower(b)) then 0.5 else 1.0
  {
    LeastWeightUnique(lower, head + [a] + tail, head + [b] + tail, distance);
    ReplacementCost(Keyboard(lower), head, a, b, tail);
    TableIsKeyboard(lower(a), lower(b));
  }

  /** Inserting or deleting one character costs a whole. */
  lemma InsertionWeight(lower: char -> char, head: string, c: char, tail: string, there: real, back: real)
    requires IsLeastWeight(lower, head + tail, head + [c] + tail, there)
    requires IsLeastWeight(lower, head + [c] + tail, head + tail, back)
    ensures there == back == 1.0
  {
    var w, s, t := Keyboard(lower), head + tail, head + [c] + tail;
    LeastWeightUnique(lower, s, t, there);
    LeastWeightUnique(lower, t, s, back);
    OneCharacter(w, head, c, c, tail);
    Identity(w, s, t);
    Symmetric(w, s, t);
    if D(w, s, t) == 1 {
      HalfUnitDistance(w, s, t);
    }
  }

  /** The plain distance counts one for every kind of edit. */
  lemma PlainEditCosts(head: string, a: char, b: char, tail: string, replaced: nat, inserted: nat, deleted: nat)
    requires a != b && IsLeastCost(Unit, head + [a] + tail, head + [b] + tail, replaced)
    requires IsLeastCost(Unit, head + tail, head + [b] + tail, inserted)
    requires IsLeastCost(Unit, head + [a] + tail, head + tail, deleted)
    ensures replaced == inserted == deleted == 1
  {
    LeastCostUnique(Unit, head + [a] + tail, head + [b] + tail, replaced);
    LeastCostUnique(Unit, head + tail, head + [b] + tail, inserted);
    LeastCostUnique(Unit, head + [a] + tail, head + tail, deleted);
    ReplacementCost(Unit, head, a, b, tail);
    OneCharacter(Unit, head, a, b, tail);
    Identity(Unit, head + tail, head + [b] + tail);
    Identity(Unit, head + [a] + tail, head + tail);
  }

  // ---- The one-column loops ----

  function MinInt(a: int, b: int, c: int): int {
    if a < b then (if a < c then a else c) else if b < c then b else c
  }

  function MinFloat(a: real, b: real, c: real): real {
    if a < b then (if a < c then a else c) else if b < c then b else c
  }

  /** The recurrence over index pairs: row y of the column after x passes. */
  function Cell(w: Costs, r1: string, r2: string, y: nat, x: nat): nat
    requires y <= |r1| && x <= |r2|
  {
    if y == 0 then x * w.Indel()
    else if x == 0 then y * w.Indel()
    else Min(Min(Cell(w, r1, r2, y - 1, x) + w.Indel(), Cell(w, r1, r2, y, x - 1) + w.Indel()),
             Cell(w, r1, r2, y - 1, x - 1) + w.Substitute(r1[y - 1], r2[x - 1]))
  }

  lemma {:induction false} CellIsD(w: Costs, r1: string, r2: string, y: nat, x: nat)
    requires y <= |r1| && x <= |r2|
    ensures Cell(w, r1, r2, y, x) == D(w, r1[..y], r2[..x])
    decreases y + x
  {
    if y == 0 {
      FromEmpty(w, r2[..x]);
    } else if x == 0 {
      FromEmpty(w, r1[..y]);
    } else {
      assert Init(r1[..y]) == r1[..y - 1];
      assert Init(r2[..x]) == r2[..x - 1];
      CellIsD(w, r1, r2, y - 1, x);
      CellIsD(w, r1, r2, y, x - 1);
      CellIsD(w, r1, r2, y - 1, x - 1);
    }
  }

  /** next is what one pass of the inner loop makes of prev, for the x-th character c of the second string. */
  ghost predicate IsNextColumn(w: Costs, r1: string, c: char, x: nat, prev: seq<nat>, next: seq<nat>) {
    && |prev| == |next| == |r1| + 1
    && next[0] == prev[0] + w.Indel() == x * w.Indel()
    && forall y :: 1 <= y <= |r1| ==> RowRule(w, r1, c, prev, next, y)
  }

  /** Row y of a column, from the row above it and the column before it. */
  ghost predicate RowRule(w: Costs, r1: string, c: char, prev: seq<nat>, next: seq<nat>, y: nat)
    requires 1 <= y <= |r1| && |prev| == |next| == |r1| + 1
  {
    next[y] == MinInt(prev[y] + w.Indel(), next[y - 1] + w.Indel(), prev[y - 1] + w.Substitute(r1[y - 1], c))
  }

  /** Column x of the recurrence: what the one array holds after x passes. */
  ghost function Column(w: Costs, r1: string, r2: string, x: nat): (column: seq<nat>)
    requires x <= |r2|
    ensures |column| == |r1| + 1
  {
    seq(|r1| + 1, y requires 0 <= y <= |r1| => Cell(w, r1, r2, y, x))
  }

  lemma ColumnStep(w: Costs, r1: string, r2: string, x: nat, c: char, prev: seq<nat>, next: seq<nat>)
    requires 1 <= x <= |r2| && c == r2[x - 1]
    requires prev == Column(w, r1, r2, x - 1) && next == Column(w, r1, r2, x)
    ensures IsNextColumn(w, r1, c, x, prev, next)
  {
    forall y | 1 <= y <= |r1|
      ensures RowRule(w, r1, c, prev, next, y)
    {
      assert next[y] == Cell(w, r1, r2, y, x);
    }
  }

  ghost predicate FollowsAt(w: Costs, r1: string, r2: string, columns: seq<seq<nat>>, x: nat)
    requires |columns| == |r2| + 1 && 1 <= x <= |r2|
  {
    IsNextColumn(w, r1, r2[x - 1], x, columns[x - 1], columns[x])
  }

  /** The successive contents of the one array: each column follows from the one before it. */
  ghost predicate AreColumns(w: Costs, r1: string, r2: string, columns: seq<seq<nat>>) {
    && |columns| == |r2| + 1
    && |columns[0]| == |r1| + 1
    && (forall y :: 0 <= y <= |r1| ==> columns[0][y] == y * w.Indel())
    && (forall x :: 1 <= x <= |r2| ==> FollowsAt(w, r1, r2, columns, x))
    && |columns[|r2|]| == |r1| + 1 && columns[|r2|][0] == |r2| * w.Indel()
  }

  lemma Columns(w: Costs, r1: string, r2: string) returns (columns: seq<seq<nat>>)
    ensures AreColumns(w, r1, r2, columns)
    ensures IsLeastCost(w, r1, r2, columns[|r2|][|r1|])
  {
    columns := seq(|r2| + 1, x requires 0 <= x <= |r2| => Column(w, r1, r2, x));
    forall x | 1 <= x <= |r2|
      ensures FollowsAt(w, r1, r2, columns, x)
    {
      ColumnStep(w, r1, r2, x, r2[x - 1], columns[x - 1], columns[x]);
    }
    assert IsLeastCost(w, r1, r2, columns[|r2|][|r1|]) by {
      CellIsD(w, r1, r2, |r1|, |r2|);
      assert r1[..|r1|] == r1 && r2[..|r2|] == r2;
      RecurrenceIsLeastCost(w, r1, r2);
    }
  }

  /** The inner loop of LevenshteinDistance: one pass over the array, in place. */
  method PassUnit(column: array<nat>, r1: string, c: char, x: nat, ghost prev: seq<nat>, ghost next: seq<nat>)
    requires x >= 1 && IsNextColumn(Unit, r1, c, x, prev, next) && column[..] == prev
    modifies column
    ensures column[..] == next
  {
    column[0] := x;
    var lastkey := x - 1;
    for y := 1 to |r1| + 1
      invariant lastkey == prev[y - 1]
      invariant forall k :: 0 <= k < y ==> column[k] == next[k]
      invariant forall k :: y <= k <= |r1| ==> column[k] == prev[k]
    {
      assert RowRule(Unit, r1, c, prev, next, y);
      var oldkey := column[y];
      var incr := 0;
      if r1[y - 1] != c {
        incr := 1;
      }
      column[y] := MinInt(column[y] + 1, column[y - 1] + 1, lastkey + incr);
      lastkey := oldkey;
    }
  }

  method LevenshteinDistance(r1: string, r2: string) returns (distance: nat)
    ensures IsLeastCost(Unit, r1, r2, distance)
  {
    ghost var columns := Columns(Unit, r1, r2);
    distance := LevenshteinLoop(r1, r2, columns);
  }

  method LevenshteinLoop(r1: string, r2: string, ghost columns: seq<seq<nat>>) returns (distance: nat)
    requires AreColumns(Unit, r1, r2, columns)
    ensures distance == columns[|r2|][|r1|]
  {
    var len1, len2 := |r1|, |r2|;
    if len1 == 0 {
      return len2;
    }
    if len2 == 0 {
      return len1;
    }
    var column := new nat[len1 + 1](_ => 0);
    for y := 1 to len1 + 1
      invariant forall k :: 0 <= k < y ==> column[k] == k
    {
      column[y] := y;
    }
    for x := 1 to len2 + 1
      invariant column[..] == columns[x - 1]
    {
      assert FollowsAt(Unit, r1, r2, columns, x);
      PassUnit(column, r1, r2[x - 1], x, columns[x - 1], columns[x]);
    }
    return column[len1];
  }

  /** float64 values that are whole numbers of half units. */
  ghost predicate InHalves(values: seq<real>, halves: seq<nat>) {
    |values| == |halves| && forall k :: 0 <= k < |values| ==> values[k] == halves[k] as real / 2.0
  }

  /** The inner loop of WeightedLevenshteinDistance: one pass over the array, in place. */
  method PassWeighted(lower: char -> char, dp: array<real>, r1: string, c: char, x: nat,
                      ghost prev: seq<nat>, ghost next: seq<nat>)
    requires x >= 1 && IsNextColumn(Keyboard(lower), r1, c, x, prev, next) && InHalves(dp[..], prev)
    modifies dp
    ensures InHalves(dp[..], next)
  {
    dp[0] := x as real;
    var lastkey := (x - 1) as real;
    for y := 1 to |r1| + 1
      invariant lastkey == prev[y - 1] as real / 2.0
      invariant forall k :: 0 <= k < y ==> dp[k] == next[k] as real / 2.0
      invariant forall k :: y <= k <= |r1| ==> dp[k] == prev[k] as real / 2.0
    {
      assert RowRule(Keyboard(lower), r1, c, prev, next, y);
      var oldkey := dp[y];
      var incr := 1.0;
      if r1[y - 1] == c {
        incr := 0.0;
      } else {
        var c1Low, c2Low := lower(r1[y - 1]), lower(c);
        if c2Low in Neighbours(c1Low) {
          incr := 0.5;
        } else if c1Low in Neighbours(c2Low) {
          incr := 0.5;
        }
      }
      dp[y] := MinFloat(dp[y] + 1.0, dp[y - 1] + 1.0, lastkey + incr);
      lastkey := oldkey;
    }
  }

  method WeightedLevenshteinDistance(lower: char -> char, r1: string, r2: string) returns (distance: real)
    ensures IsLeastWeight(lower, r1, r2, distance)
  {
    ghost var columns := Columns(Keyboard(lower), r1, r2);
    distance := WeightedLoop(lower, r1, r2, columns);
    assert IsLeastCost(Keyboard(lower), r1, r2, columns[|r2|][|r1|]);
  }

  method WeightedLoop(lower: char -> char, r1: string, r2: string, ghost columns: seq<seq<nat>>)
      returns (distance: real)
    requires AreColumns(Keyboard(lower), r1, r2, columns)
    ensures distance == columns[|r2|][|r1|] as real / 2.0
  {
    var len1, len2 := |r1|, |r2|;
    if len1 == 0 {
      return len2 as real;
    }
    if len2 == 0 {
      return len1 as real;
    }
    var dp := new real[len1 + 1](_ => 0.0);
    for y := 1 to len1 + 1
      invariant forall k :: 0 <= k < y ==> dp[k] == k as real
    {
      dp[y] := y as real;
    }
    for x := 1 to len2 + 1
      invariant InHalves(dp[..], columns[x - 1])
    {
      assert FollowsAt(Keyboard(lower), r1, r2, columns, x);
      PassWeighted(lower, dp, r1, r2[x - 1], x, columns[x - 1], columns[x]);
    }
    distance := dp[..][len1];
  }
}
