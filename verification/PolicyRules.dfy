/** The rules of a policy definition: what they match, and the one order in which they are stored. */
module PolicyRules {
  import opened Ordering

  const MAX_RULES: int := 128
  const MAX_CAPABILITIES: int := 64

  datatype ResourceSelector = AnyResource | Exactly(name: string) | Under(prefix: string)

  datatype CapabilitySelector = AnyCapability | Only(values: seq<string>)

  datatype Rule = Rule(resource: ResourceSelector, capability: CapabilitySelector)

  // ----------------------------------------------------------------- what a rule says

  /** Names equal to the prefix or lying under it, segment by segment. */
  predicate NameMatches(s: ResourceSelector, name: string) {
    match s
    case AnyResource => true
    case Exactly(n) => name == n
    case Under(p) => name == p || p + "/" <= name
  }

  predicate CapabilityMatches(s: CapabilitySelector, capability: string) {
    match s
    case AnyCapability => true
    case Only(values) => capability in values
  }

  predicate RuleMatches(r: Rule, name: string, capability: string) {
    NameMatches(r.resource, name) && CapabilityMatches(r.capability, capability)
  }

  predicate RuleOk(r: Rule) {
    match r.capability
    case AnyCapability => true
    case Only(values) => 1 <= |values| <= MAX_CAPABILITIES && StrictlySorted(values)
  }

  predicate RulesOk(rules: seq<Rule>) {
    && 1 <= |rules| <= MAX_RULES && (forall i :: 0 <= i < |rules| ==> RuleOk(rules[i]))
    && (forall i, j :: 0 <= i < j < |rules| ==> Key(rules[i]) != Key(rules[j]))
  }

  // ----------------------------------------------------------------------- names as paths

  /** Where the first slash of a name is, or its length when there is none. */
  function FirstSlash(s: string): (n: nat)
    ensures n <= |s| && (n < |s| ==> s[n] == '/') && (forall i :: 0 <= i < n ==> s[i] != '/')
  {
    if s == "" || s[0] == '/' then 0 else 1 + FirstSlash(s[1..])
  }

  /** The segments of a name between its slashes. */
  function Segments(s: string): (r: seq<string>)
    ensures |r| >= 1
    decreases |s|
  {
    var n := FirstSlash(s);
    if n == |s| then [s] else [s[..n]] + Segments(s[n + 1..])
  }

  function Path(segments: seq<string>): (s: string)
    requires |segments| >= 1
  {
    if |segments| == 1 then segments[0] else segments[0] + "/" + Path(segments[1..])
  }

  lemma {:induction false} PathOfSegments(s: string)
    ensures Path(Segments(s)) == s
    decreases |s|
  {
    var n := FirstSlash(s);
    if n < |s| {
      PathOfSegments(s[n + 1..]);
      assert Segments(s)[1..] == Segments(s[n + 1..]);
      assert s == s[..n] + "/" + s[n + 1..];
    }
  }

  lemma {:induction false} PathJoins(a: seq<string>, b: seq<string>)
    requires |a| >= 1 && |b| >= 1
    ensures Path(a + b) == Path(a) + "/" + Path(b)
    decreases |a|
  {
    if |a| == 1 {
      assert (a + b)[1..] == b;
    } else {
      assert (a + b)[1..] == a[1..] + b;
      PathJoins(a[1..], b);
      assert a[0] + "/" + (Path(a[1..]) + "/" + Path(b)) == (a[0] + "/" + Path(a[1..])) + "/" + Path(b);
    }
  }

  lemma FirstSlashOf(s: string, n: nat)
    requires n < |s| && s[n] == '/' && forall i :: 0 <= i < n ==> s[i] != '/'
    ensures FirstSlash(s) == n
  {
    hide FirstSlash;
  }

  lemma Unfolded(s: string, n: nat)
    requires FirstSlash(s) == n < |s|
    ensures Segments(s) == [s[..n]] + Segments(s[n + 1..])
  {
    hide FirstSlash;
  }

  lemma Slices(s: string, n: nat, k: nat)
    requires n < k < |s|
    ensures s[..k][..n] == s[..n] && s[..k][n + 1..] == s[n + 1..][..k - n - 1]
    ensures s[n + 1..][k - n - 1] == s[k] && s[n + 1..][k - n..] == s[k + 1..]
  {}

  lemma Regroup(x: seq<string>, a: seq<string>, b: seq<string>)
    ensures x + (a + b) == (x + a) + b
  {}

  lemma FirstSegment(s: string, k: nat)
    requires k < |s| && FirstSlash(s) == k
    ensures Segments(s[..k]) == [s[..k]]
  {
    assert FirstSlash(s[..k]) == |s[..k]| by { hide FirstSlash; }
    hide FirstSlash;
  }

  lemma FirstOfPrefix(s: string, n: nat, k: nat)
    requires n < k < |s| && FirstSlash(s) == n
    ensures FirstSlash(s[..k]) == n
  {
    assert s[..k][n] == '/' by { hide FirstSlash; }
    FirstSlashOf(s[..k], n) by { hide FirstSlash; }
  }

  /** Any slash separates the segments before it from those behind it. */
  lemma {:induction false} SegmentsAt(s: string, k: nat)
    requires k < |s| && s[k] == '/'
    ensures Segments(s) == Segments(s[..k]) + Segments(s[k + 1..])
    decreases |s|
  {
    hide Segments, FirstSlash;
    var n := FirstSlash(s);
    assert n <= k;
    Unfolded(s, n);
    if n == k {
      FirstSegment(s, k);
    } else {
      var tail := s[n + 1..];
      Slices(s, n, k);
      FirstOfPrefix(s, n, k);
      Unfolded(s[..k], n);
      SegmentsAt(tail, k - n - 1);
      assert tail[k - n - 1 + 1..] == s[k + 1..];
      Regroup([s[..n]], Segments(tail[..k - n - 1]), Segments(s[k + 1..]));
    }
  }

  /** A selector of a prefix matches exactly the names whose segments begin with its segments. */
  lemma UnderIsSegmentwise(p: string, name: string)
    ensures NameMatches(Under(p), name) <==> Segments(p) <= Segments(name)
  {
    var a, b := Segments(p), Segments(name);
    hide Segments, FirstSlash, Path;
    PathOfSegments(p);
    PathOfSegments(name);
    if p + "/" <= name {
      assert name[|p|] == '/' && name[..|p|] == p;
      SegmentsAt(name, |p|);
    }
    if a <= b && a != b {
      var rest := b[|a|..];
      assert b == a + rest;
      PathJoins(a, rest);
    }
  }

  // ------------------------------------------------------------------ the stored order

  /** A list of texts as it is printed: in brackets, separated by blanks. */
  function Printed(values: seq<string>): (r: string) { "[" + Joined(values) + "]" }

  function Joined(values: seq<string>): (r: string) {
    if |values| == 0 then "" else if |values| == 1 then values[0] else values[0] + " " + Joined(values[1..])
  }

  /** The texts rules are told apart and ordered by. */
  function Key(r: Rule): (k: seq<string>)
    ensures |k| == 4
  {
    var resource := match r.resource
                    case AnyResource => ["all", ""]
                    case Exactly(name) => ["exact", name]
                    case Under(prefix) => ["prefix", prefix];
    var capability := match r.capability
                      case AnyCapability => ["all", Printed([])]
                      case Only(values) => ["exact", Printed(values)];
    resource + capability
  }

  /** Lists of texts, compared text by text. */
  predicate KeyLess(a: seq<string>, b: seq<string>) {
    |b| > 0 && (|a| == 0 || Less(a[0], b[0]) || (a[0] == b[0] && KeyLess(a[1..], b[1..])))
  }

  lemma {:induction false} KeyIrreflexive(a: seq<string>)
    ensures !KeyLess(a, a)
  {
    if a != [] {
      LessIrreflexive(a[0]);
      KeyIrreflexive(a[1..]);
    }
  }

  lemma {:induction false} KeyTransitive(a: seq<string>, b: seq<string>, c: seq<string>)
    requires KeyLess(a, b) && KeyLess(b, c)
    ensures KeyLess(a, c)
  {
    if a != [] {
      if a[0] == b[0] == c[0] {
        LessIrreflexive(a[0]);
        KeyTransitive(a[1..], b[1..], c[1..]);
      } else if Less(a[0], b[0]) && Less(b[0], c[0]) {
        LessTransitive(a[0], b[0], c[0]);
      }
    }
  }

  lemma {:induction false} KeyTotal(a: seq<string>, b: seq<string>)
    ensures a == b || KeyLess(a, b) || KeyLess(b, a)
  {
    if a != [] && b != [] {
      LessTotal(a[0], b[0]);
      if a[0] == b[0] {
        KeyTotal(a[1..], b[1..]);
        assert a == [a[0]] + a[1..] && b == [b[0]] + b[1..];
      }
    }
  }

  predicate InOrder(rules: seq<Rule>) { forall i, j :: 0 <= i < j < |rules| ==> KeyLess(Key(rules[i]), Key(rules[j])) }

  function InsertRule(rules: seq<Rule>, r: Rule): (s: seq<Rule>) {
    if rules == [] || KeyLess(Key(r), Key(rules[0])) then [r] + rules else [rules[0]] + InsertRule(rules[1..], r)
  }

  /** The rules as they are stored. */
  function SortedRules(rules: seq<Rule>): (s: seq<Rule>) {
    if rules == [] then [] else InsertRule(SortedRules(rules[1..]), rules[0])
  }

  lemma {:induction false} InsertIs(rules: seq<Rule>, r: Rule)
    requires InOrder(rules) && forall i :: 0 <= i < |rules| ==> Key(rules[i]) != Key(r)
    ensures var s := InsertRule(rules, r); InOrder(s) && multiset(s) == multiset(rules) + multiset{r}
  {
    hide Key;
    var s := InsertRule(rules, r);
    if rules == [] {
    } else if KeyLess(Key(r), Key(rules[0])) {
      forall i | 0 <= i < |rules| ensures KeyLess(Key(r), Key(rules[i])) {
        if i > 0 { KeyTransitive(Key(r), Key(rules[0]), Key(rules[i])); }
      }
    } else {
      KeyTotal(Key(r), Key(rules[0]));
      var rest := InsertRule(rules[1..], r);
      InsertIs(rules[1..], r);
      assert rules == [rules[0]] + rules[1..];
      forall j | 0 <= j < |rest| ensures KeyLess(Key(rules[0]), Key(rest[j])) {
        assert rest[j] in multiset(rest);
        if rest[j] != r {
          assert rest[j] in rules[1..];
          var k :| 0 <= k < |rules[1..]| && rules[1..][k] == rest[j];
        }
      }
      hide KeyLess;
    }
  }

  lemma SameRules(a: seq<Rule>, b: seq<Rule>)
    requires multiset(a) == multiset(b)
    ensures |a| == |b| && forall i :: 0 <= i < |b| ==> b[i] in a
  {
    assert |a| == |multiset(a)| && |b| == |multiset(b)|;
    forall i | 0 <= i < |b| ensures b[i] in a { assert b[i] in multiset(b); }
  }

  lemma NewKey(a: seq<Rule>, b: seq<Rule>, r: Rule)
    requires (forall i :: 0 <= i < |b| ==> b[i] in a) && forall i :: 0 <= i < |a| ==> Key(a[i]) != Key(r)
    ensures forall i :: 0 <= i < |b| ==> Key(b[i]) != Key(r)
  {
    hide Key;
  }

  lemma MatchesIn(a: seq<Rule>, b: seq<Rule>, name: string, capability: string)
    requires forall i :: 0 <= i < |b| ==> b[i] in a
    ensures (exists i :: 0 <= i < |b| && RuleMatches(b[i], name, capability)) ==>
              exists i :: 0 <= i < |a| && RuleMatches(a[i], name, capability)
  {
    hide RuleMatches;
    if i :| 0 <= i < |b| && RuleMatches(b[i], name, capability) {
      var j :| 0 <= j < |a| && a[j] == b[i];
      assert RuleMatches(a[j], name, capability);
    }
  }

  /** Storing rules puts them in order and keeps each of them. */
  lemma {:induction false} SortedRulesAre(rules: seq<Rule>)
    requires forall i, j :: 0 <= i < j < |rules| ==> Key(rules[i]) != Key(rules[j])
    ensures InOrder(SortedRules(rules)) && multiset(SortedRules(rules)) == multiset(rules)
  {
    if rules != [] {
      hide Key, KeyLess, InOrder, InsertRule;
      SortedRulesAre(rules[1..]);
      var rest := SortedRules(rules[1..]);
      SameRules(rules[1..], rest);
      NewKey(rules[1..], rest, rules[0]);
      InsertIs(rest, rules[0]);
      assert rules == [rules[0]] + rules[1..];
    } else {
      assert multiset(SortedRules(rules)) == multiset(rules);
    }
  }

  lemma HeadIsLeast(a: seq<Rule>, b: seq<Rule>)
    requires InOrder(a) && InOrder(b) && a != [] && b != [] && a[0] in b && b[0] in a
    ensures a[0] == b[0]
  {
    hide Key;
    if a[0] != b[0] {
      var i :| 0 <= i < |a| && a[i] == b[0];
      var j :| 0 <= j < |b| && b[j] == a[0];
      KeyTransitive(Key(a[0]), Key(b[0]), Key(a[0]));
      KeyIrreflexive(Key(a[0]));
    }
  }

  lemma TailRules(a: seq<Rule>, b: seq<Rule>)
    requires multiset(a) == multiset(b) && a != [] && b != [] && a[0] == b[0]
    ensures multiset(a[1..]) == multiset(b[1..])
  {
    assert a == [a[0]] + a[1..] && b == [b[0]] + b[1..];
    assert multiset(a[1..]) == multiset(a) - multiset{a[0]};
    assert multiset(b[1..]) == multiset(b) - multiset{b[0]};
  }

  /** There is only one such order, so any way of sorting stores the same rules. */
  lemma {:induction false} OrderIsUnique(a: seq<Rule>, b: seq<Rule>)
    requires InOrder(a) && InOrder(b) && multiset(a) == multiset(b)
    ensures a == b
  {
    SameRules(a, b);
    SameRules(b, a);
    if a != [] {
      HeadIsLeast(a, b);
      TailRules(a, b);
      hide Key, KeyLess;
      OrderIsUnique(a[1..], b[1..]);
      assert a == [a[0]] + a[1..] && b == [b[0]] + b[1..];
    }
  }

  /** Stored rules are as well formed as they were, and match exactly what they matched. */
  lemma StoredRulesMeanTheSame(rules: seq<Rule>, name: string, capability: string)
    requires RulesOk(rules)
    ensures RulesOk(SortedRules(rules))
    ensures (exists i :: 0 <= i < |rules| && RuleMatches(rules[i], name, capability))
            <==> exists i :: 0 <= i < |SortedRules(rules)| && RuleMatches(SortedRules(rules)[i], name, capability)
  {
    SortedRulesAre(rules);
    var s := SortedRules(rules);
    hide SortedRules, Key, RuleMatches, RuleOk;
    SameRules(rules, s);
    SameRules(s, rules);
    MatchesIn(rules, s, name, capability);
    MatchesIn(s, rules, name, capability);
    OrderedAreApart(s);
  }

  lemma OrderedAreApart(rules: seq<Rule>)
    requires InOrder(rules)
    ensures forall i, j :: 0 <= i < j < |rules| ==> Key(rules[i]) != Key(rules[j])
  {
    hide Key;
    forall i, j | 0 <= i < j < |rules| ensures Key(rules[i]) != Key(rules[j]) { KeyIrreflexive(Key(rules[i])); }
  }
}
