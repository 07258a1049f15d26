/** Permission rules: first match in memory, two lists on disk, and the bash network answer kept for the
    session (crates/savvagent-host/src/permissions.rs). */
module Permissions {
  import opened Base
  import opened Fence
  import Schema

  datatype Decision = Allow | Deny

  datatype ArgPattern = Any | Path(prefix: string) | Command(word: string)

  datatype Rule = Rule(tool: string, pattern: ArgPattern, decision: Decision)

  datatype SerializableRule = SerializableRule(tool: string, path: Option<string>, command: Option<string>)

  datatype PermissionsToml = PermissionsToml(allow: seq<SerializableRule>, deny: seq<SerializableRule>)

  // ---------------------------------------------------------------------------------------------
  // Matching
  // ---------------------------------------------------------------------------------------------

  /** A string argument of a call. */
  function StringArg(args: Value, key: string): Option<string> {
    var v := GetOr(if args.Obj? then Schema.Get(args.entries, key) else None, Null);
    if v.Str? then Some(v.s) else None
  }

  /** The first token of a command line. */
  function FirstWord(s: string): Option<string> {
    var t := TrimStart(s);
    if t == "" then None else Some(t[..Until(t, IsWhitespace)])
  }

  /** The components after the root: separators fold together, and `.` counts only at the very front. */
  function Segments(p: string, front: bool): seq<string>
    decreases |p|
  {
    var n := Until(p, c => c == '/');
    var head := if n == 0 || (p[..n] == "." && !front) then [] else [p[..n]];
    if n == |p| then head else head + Segments(p[n + 1..], false)
  }

  /** A path as `std::path::Path` compares it on Unix. */
  function Components(p: string): seq<string> {
    if p != "" && p[0] == '/' then ["/"] + Segments(p[1..], false) else Segments(p, true)
  }

  predicate PathStartsWith(p: string, prefix: string) {
    Components(prefix) <= Components(p)
  }

  function CommandWord(args: Value): Option<string> {
    var c := StringArg(args, "command");
    if c.Some? then FirstWord(c.value) else None
  }

  function ForCall(tool: string, args: Value): ArgPattern {
    if tool in {"read_file", "write_file", "list_dir", "glob"} then
      var p := StringArg(args, "path");
      if p.Some? then Path(p.value) else Any
    else if tool == "run" then
      var w := CommandWord(args);
      if w.Some? then Command(w.value) else Any
    else Any
  }

  predicate PatternMatches(pattern: ArgPattern, args: Value) {
    match pattern
    case Any => true
    case Path(want) => var p := StringArg(args, "path"); p.Some? && PathStartsWith(p.value, want)
    case Command(want) => CommandWord(args) == Some(want)
  }

  predicate Matches(r: Rule, tool: string, args: Value) {
    r.tool == tool && PatternMatches(r.pattern, args)
  }

  function MatchFirst(rules: seq<Rule>, tool: string, args: Value): Option<Decision> {
    if rules == [] then None
    else if Matches(rules[0], tool, args) then Some(rules[0].decision)
    else MatchFirst(rules[1..], tool, args)
  }

  /** Is there a rule for this call with this decision? */
  predicate Speaks(rules: seq<Rule>, d: Decision, tool: string, args: Value) {
    exists r <- rules :: r.decision == d && Matches(r, tool, args)
  }

  /** The pattern recorded for a call matches that call. */
  lemma RecordedPatternMatches(tool: string, args: Value)
    ensures PatternMatches(ForCall(tool, args), args)
  {
  }

  lemma {:induction false} MatchFirstJoin(a: seq<Rule>, b: seq<Rule>, tool: string, args: Value)
    ensures MatchFirst(a + b, tool, args)
         == if MatchFirst(a, tool, args).Some? then MatchFirst(a, tool, args) else MatchFirst(b, tool, args)
  {
    if a == [] {
      assert a + b == b;
    } else {
      assert (a + b)[1..] == a[1..] + b;
      MatchFirstJoin(a[1..], b, tool, args);
    }
  }

  // ---------------------------------------------------------------------------------------------
  // Saving and loading
  // ---------------------------------------------------------------------------------------------

  function FromSerializable(s: SerializableRule, d: Decision): Rule {
    Rule(s.tool,
         if s.path.Some? then Path(s.path.value) else if s.command.Some? then Command(s.command.value) else Any,
         d)
  }

  function ToSerializable(r: Rule): SerializableRule {
    match r.pattern
    case Path(p) => SerializableRule(r.tool, Some(p), None)
    case Command(c) => SerializableRule(r.tool, None, Some(c))
    case Any => SerializableRule(r.tool, None, None)
  }

  /** A rule survives being saved; an entry survives being loaded unless it names both a path and a
      command, where the command is lost. */
  lemma RuleRoundTrip(r: Rule, s: SerializableRule, d: Decision)
    ensures FromSerializable(ToSerializable(r), r.decision) == r
    ensures ToSerializable(FromSerializable(s, d)) == s <==> s.path.None? || s.command.None?
  {
  }

  function Loaded(entries: seq<SerializableRule>, d: Decision): seq<Rule> {
    seq(|entries|, k requires 0 <= k < |entries| => FromSerializable(entries[k], d))
  }

  function Saved(rules: seq<Rule>): seq<SerializableRule> {
    seq(|rules|, k requires 0 <= k < |rules| => ToSerializable(rules[k]))
  }

  /** The rules with one decision, in order. */
  function With(rules: seq<Rule>, d: Decision): (kept: seq<Rule>)
    ensures forall r <- kept :: r.decision == d
  {
    if rules == [] then []
    else
      var before, last := With(rules[..|rules| - 1], d), rules[|rules| - 1];
      if last.decision == d then before + [last] else before
  }

  method RulesFromPermissions(allow: seq<SerializableRule>, deny: seq<SerializableRule>) returns (out: seq<Rule>)
    ensures out == Loaded(allow, Allow) + Loaded(deny, Deny)
  {
    out := [];
    for k := 0 to |allow|
      invariant out == Loaded(allow[..k], Allow)
    {
      out := out + [FromSerializable(allow[k], Allow)];
    }
    assert allow[..|allow|] == allow;
    for k := 0 to |deny|
      invariant out == Loaded(allow, Allow) + Loaded(deny[..k], Deny)
    {
      out := out + [FromSerializable(deny[k], Deny)];
    }
    assert deny[..|deny|] == deny;
  }

  method PermissionsFromRules(rules: seq<Rule>) returns (out: PermissionsToml)
    ensures out == PermissionsToml(Saved(With(rules, Allow)), Saved(With(rules, Deny)))
  {
    out := PermissionsToml([], []);
    for k := 0 to |rules|
      invariant out == PermissionsToml(Saved(With(rules[..k], Allow)), Saved(With(rules[..k], Deny)))
    {
      assert rules[..k + 1][..k] == rules[..k];
      var s := ToSerializable(rules[k]);
      match rules[k].decision {
        case Allow => out := out.(allow := out.allow + [s]);
        case Deny => out := out.(deny := out.deny + [s]);
      }
    }
    assert rules[..|rules|] == rules;
  }

  /** What a rule list becomes when it is saved and loaded again. */
  function Reloaded(rules: seq<Rule>): seq<Rule> {
    With(rules, Allow) + With(rules, Deny)
  }

  method SaveAndReload(rules: seq<Rule>) returns (again: seq<Rule>)
    ensures again == Reloaded(rules)
  {
    var toml := PermissionsFromRules(rules);
    again := RulesFromPermissions(toml.allow, toml.deny);
    LoadSaved(With(rules, Allow), Allow);
    LoadSaved(With(rules, Deny), Deny);
  }

  lemma LoadSaved(rules: seq<Rule>, d: Decision)
    requires forall r <- rules :: r.decision == d
    ensures Loaded(Saved(rules), d) == rules
  {
    forall k | 0 <= k < |rules| ensures Loaded(Saved(rules), d)[k] == rules[k] {
      RuleRoundTrip(rules[k], Saved(rules)[k], d);
    }
  }

  lemma {:induction false} WithJoin(a: seq<Rule>, b: seq<Rule>, d: Decision)
    ensures With(a + b, d) == With(a, d) + With(b, d)
    decreases |b|
  {
    if b == [] {
      assert a + b == a;
    } else {
      var n := |b| - 1;
      assert (a + b)[..|a| + n] == a + b[..n];
      WithJoin(a, b[..n], d);
    }
  }

  lemma {:induction false} WithAll(rules: seq<Rule>, d: Decision, e: Decision)
    requires forall r <- rules :: r.decision == d
    ensures With(rules, e) == if d == e then rules else []
  {
    if rules != [] {
      var n := |rules| - 1;
      WithAll(rules[..n], d, e);
      assert rules == rules[..n] + [rules[n]];
    }
  }

  /** Reloading moves the allow rules in front of the deny rules and does nothing else: the order within
      each decision stays, and a second reload changes nothing. */
  lemma ReloadIsStablePartition(rules: seq<Rule>, d: Decision)
    ensures With(Reloaded(rules), d) == With(rules, d)
    ensures Reloaded(Reloaded(rules)) == Reloaded(rules)
    ensures multiset(Reloaded(rules)) == multiset(rules)
  {
    forall e: Decision ensures With(Reloaded(rules), e) == With(rules, e) {
      WithJoin(With(rules, Allow), With(rules, Deny), e);
      WithAll(With(rules, Allow), Allow, e);
      WithAll(With(rules, Deny), Deny, e);
    }
    ReloadPermutes(rules);
  }

  lemma {:induction false} ReloadPermutes(rules: seq<Rule>)
    ensures multiset(With(rules, Allow)) + multiset(With(rules, Deny)) == multiset(rules)
    ensures multiset(Reloaded(rules)) == multiset(rules)
  {
    if rules != [] {
      var n := |rules| - 1;
      ReloadPermutes(rules[..n]);
      assert rules == rules[..n] + [rules[n]];
    }
  }

  lemma {:induction false} MatchOne(rules: seq<Rule>, d: Decision, tool: string, args: Value)
    requires forall r <- rules :: r.decision == d
    ensures MatchFirst(rules, tool, args) == if Speaks(rules, d, tool, args) then Some(d) else None
  {
    hide Matches;
    if rules != [] {
      MatchOne(rules[1..], d, tool, args);
      assert rules == [rules[0]] + rules[1..];
    }
  }

  lemma {:induction false} WithSpeaks(rules: seq<Rule>, d: Decision, tool: string, args: Value)
    ensures Speaks(With(rules, d), d, tool, args) <==> Speaks(rules, d, tool, args)
  {
    hide Matches;
    if rules != [] {
      var n := |rules| - 1;
      WithSpeaks(rules[..n], d, tool, args);
      assert rules == rules[..n] + [rules[n]];
    }
  }

  /** After a reload the order between allow and deny rules is gone: any allow rule that matches wins. */
  lemma ReloadedDecision(rules: seq<Rule>, tool: string, args: Value)
    ensures MatchFirst(Reloaded(rules), tool, args)
         == if Speaks(rules, Allow, tool, args) then Some(Allow)
            else if Speaks(rules, Deny, tool, args) then Some(Deny)
            else None
  {
    hide Matches, MatchFirst, Speaks;
    MatchFirstJoin(With(rules, Allow), With(rules, Deny), tool, args);
    forall d: Decision
      ensures MatchFirst(With(rules, d), tool, args) == if Speaks(rules, d, tool, args) then Some(d) else None
    {
      MatchOne(With(rules, d), d, tool, args);
      WithSpeaks(rules, d, tool, args);
    }
  }

  lemma {:induction false} MatchFirstSpeaks(rules: seq<Rule>, tool: string, args: Value)
    ensures match MatchFirst(rules, tool, args)
            case Some(d) => Speaks(rules, d, tool, args)
            case None => !Speaks(rules, Allow, tool, args) && !Speaks(rules, Deny, tool, args)
  {
    hide Matches;
    if rules != [] {
      MatchFirstSpeaks(rules[1..], tool, args);
      assert rules == [rules[0]] + rules[1..];
      assert rules[0] in rules;
    }
  }

  /** A call is decided differently after a reload exactly when its first match is a deny rule and an
      allow rule matches it too. */
  lemma ReloadChangesDecision(rules: seq<Rule>, tool: string, args: Value)
    ensures MatchFirst(Reloaded(rules), tool, args) != MatchFirst(rules, tool, args)
       <==> MatchFirst(rules, tool, args) == Some(Deny) && Speaks(rules, Allow, tool, args)
  {
    hide Speaks, MatchFirst, Reloaded;
    ReloadedDecision(rules, tool, args);
    MatchFirstSpeaks(rules, tool, args);
    match MatchFirst(rules, tool, args) {
      case Some(d) => assert d == Allow || d == Deny;
      case None =>
    }
  }

  /** A deny rule above a broader allow rule holds only until the rules are next loaded. */
  lemma DenyAboveAllowIsLost()
    ensures var rules := [Rule("read_file", Path("/p/x"), Deny), Rule("read_file", Any, Allow)];
            var args := Obj([Entry("path", Str("/p/x"))]);
            && MatchFirst(rules, "read_file", args) == Some(Deny)
            && MatchFirst(Reloaded(rules), "read_file", args) == Some(Allow)
  {
    hide Components;
    var deny, allow := Rule("read_file", Path("/p/x"), Deny), Rule("read_file", Any, Allow);
    var rules := [deny, allow];
    var args := Obj([Entry("path", Str("/p/x"))]);
    assert StringArg(args, "path") == Some("/p/x");
    assert Matches(deny, "read_file", args);
    assert allow in rules && Matches(allow, "read_file", args);
    ReloadChangesDecision(rules, "read_file", args);
    ReloadedDecision(rules, "read_file", args);
  }

  // ---------------------------------------------------------------------------------------------
  // Recording decisions
  // ---------------------------------------------------------------------------------------------

  predicate SameKey(a: Rule, b: Rule) {
    a.tool == b.tool && a.pattern == b.pattern
  }

  predicate Overridden(r: Rule, later: seq<Rule>) {
    exists l <- later :: SameKey(r, l)
  }

  /** The rules whose key is not recorded again. */
  function Untouched(rules: seq<Rule>, later: seq<Rule>): seq<Rule> {
    if rules == [] then []
    else (if Overridden(rules[0], later) then [] else [rules[0]]) + Untouched(rules[1..], later)
  }

  /** Of a run of recordings, those that no later one replaces. */
  function Latest(recorded: seq<Rule>): seq<Rule> {
    if recorded == [] then []
    else (if Overridden(recorded[0], recorded[1..]) then [] else [recorded[0]]) + Latest(recorded[1..])
  }

  /** The rule list after a run of recordings: untouched rules keep their place, and behind them comes the
      last recording of every key, in order. */
  function Recorded(rules: seq<Rule>, run: seq<Rule>): seq<Rule> {
    Untouched(rules, run) + Latest(run)
  }

  predicate DistinctKeys(rules: seq<Rule>) {
    forall i, j | 0 <= i < j < |rules| :: !SameKey(rules[i], rules[j])
  }

  lemma {:induction false} UntouchedJoin(a: seq<Rule>, b: seq<Rule>, later: seq<Rule>)
    ensures Untouched(a + b, later) == Untouched(a, later) + Untouched(b, later)
  {
    hide Overridden;
    if a == [] {
      assert a + b == b;
    } else {
      assert (a + b)[1..] == a[1..] + b;
      UntouchedJoin(a[1..], b, later);
    }
  }

  lemma {:induction false} UntouchedTwice(rules: seq<Rule>, first: seq<Rule>, second: seq<Rule>)
    ensures Untouched(Untouched(rules, first), second) == Untouched(rules, first + second)
  {
    if rules != [] {
      var head := if Overridden(rules[0], first) then [] else [rules[0]];
      UntouchedTwice(rules[1..], first, second);
      UntouchedJoin(head, Untouched(rules[1..], first), second);
      assert Overridden(rules[0], first + second) <==> Overridden(rules[0], first) || Overridden(rules[0], second) by {
        OverriddenJoin(rules[0], first, second);
      }
      if head != [] {
        assert Untouched(head, second) == if Overridden(rules[0], second) then [] else head;
      }
    }
  }

  lemma OverriddenJoin(r: Rule, a: seq<Rule>, b: seq<Rule>)
    ensures Overridden(r, a + b) <==> Overridden(r, a) || Overridden(r, b)
  {
    if Overridden(r, a) {
      var l :| l in a && SameKey(r, l);
      assert l in a + b;
    }
    if Overridden(r, b) {
      var l :| l in b && SameKey(r, l);
      assert l in a + b;
    }
  }

  lemma UntouchedOne(rules: seq<Rule>, later: seq<Rule>)
    requires |rules| < 2
    ensures Untouched(rules, later) == if rules == [] || Overridden(rules[0], later) then [] else rules
  {
    hide Overridden;
    if rules != [] {
      assert rules[1..] == [];
    }
  }

  lemma LatestFirst(run: seq<Rule>)
    ensures Latest(run)
         == if run == [] then []
            else (if Overridden(run[0], run[1..]) then [] else [run[0]]) + Latest(run[1..])
  {
    hide Overridden;
  }

  lemma {:induction false} LatestJoin(a: seq<Rule>, b: seq<Rule>)
    ensures Latest(a + b) == Untouched(Latest(a), b) + Latest(b)
  {
    hide Overridden, Untouched, Latest;
    if a == [] {
      assert a + b == b;
      UntouchedOne([], b);
      LatestFirst([]);
    } else {
      var head := if Overridden(a[0], a[1..]) then [] else [a[0]];
      assert (a + b)[0] == a[0] && (a + b)[1..] == a[1..] + b;
      LatestFirst(a);
      LatestFirst(a + b);
      LatestJoin(a[1..], b);
      OverriddenJoin(a[0], a[1..], b);
      UntouchedJoin(head, Latest(a[1..]), b);
      UntouchedOne(head, b);
    }
  }

  lemma {:induction false} RecordedNothing(rules: seq<Rule>)
    ensures Recorded(rules, []) == rules
  {
    if rules != [] {
      RecordedNothing(rules[1..]);
      assert rules == [rules[0]] + rules[1..];
    }
  }

  /** Recording is a monoid action: two runs one after the other are the joined run. */
  lemma RecordedJoin(rules: seq<Rule>, first: seq<Rule>, second: seq<Rule>)
    ensures Recorded(Recorded(rules, first), second) == Recorded(rules, first + second)
  {
    hide Untouched, Latest;
    UntouchedJoin(Untouched(rules, first), Latest(first), second);
    UntouchedTwice(rules, first, second);
    LatestJoin(first, second);
  }

  lemma {:induction false} UntouchedKeepsDistinct(rules: seq<Rule>, later: seq<Rule>)
    requires DistinctKeys(rules)
    ensures DistinctKeys(Untouched(rules, later))
    ensures forall r <- Untouched(rules, later) :: r in rules && !Overridden(r, later)
  {
    hide Overridden;
    if rules != [] {
      assert forall i, j | 0 <= i < j < |rules| - 1 :: rules[1..][i] == rules[i + 1] && rules[1..][j] == rules[j + 1];
      UntouchedKeepsDistinct(rules[1..], later);
      var rest := Untouched(rules[1..], later);
      forall r <- rest ensures !SameKey(rules[0], r) {
        var k :| 0 <= k < |rules[1..]| && rules[1..][k] == r;
        assert rules[k + 1] == r;
      }
    }
  }

  lemma {:induction false} LatestDistinct(run: seq<Rule>)
    ensures DistinctKeys(Latest(run))
    ensures forall r <- Latest(run) :: r in run
  {
    if run != [] {
      LatestDistinct(run[1..]);
      forall r <- Latest(run[1..]) | !Overridden(run[0], run[1..]) ensures !SameKey(run[0], r) {
        assert r in run[1..];
      }
    }
  }

  /** Distinct keys stay distinct over any run of recordings. */
  lemma RecordedDistinct(rules: seq<Rule>, run: seq<Rule>)
    requires DistinctKeys(rules)
    ensures DistinctKeys(Recorded(rules, run))
  {
    UntouchedKeepsDistinct(rules, run);
    LatestDistinct(run);
    forall a <- Untouched(rules, run), b <- Latest(run) ensures !SameKey(a, b) {
      assert b in run;
    }
  }

  /** The decision kept for a key. */
  function DecisionFor(rules: seq<Rule>, tool: string, pattern: ArgPattern): Option<Decision> {
    if rules == [] then None
    else
      var last := rules[|rules| - 1];
      if last.tool == tool && last.pattern == pattern then Some(last.decision)
      else DecisionFor(rules[..|rules| - 1], tool, pattern)
  }

  lemma {:induction false} DecisionForJoin(a: seq<Rule>, b: seq<Rule>, tool: string, pattern: ArgPattern)
    ensures DecisionFor(a + b, tool, pattern)
         == if DecisionFor(b, tool, pattern).Some? then DecisionFor(b, tool, pattern) else DecisionFor(a, tool, pattern)
    decreases |b|
  {
    if b == [] {
      assert a + b == a;
    } else {
      var n := |b| - 1;
      assert (a + b)[..|a| + n] == a + b[..n];
      DecisionForJoin(a, b[..n], tool, pattern);
    }
  }

  lemma {:induction false} DecisionForUntouched(rules: seq<Rule>, run: seq<Rule>, tool: string, pattern: ArgPattern)
    requires DecisionFor(run, tool, pattern).None?
    ensures DecisionFor(Untouched(rules, run), tool, pattern) == DecisionFor(rules, tool, pattern)
  {
    if rules != [] {
      var head := if Overridden(rules[0], run) then [] else [rules[0]];
      DecisionForUntouched(rules[1..], run, tool, pattern);
      DecisionForJoin(head, Untouched(rules[1..], run), tool, pattern);
      DecisionForJoin([rules[0]], rules[1..], tool, pattern);
      assert rules == [rules[0]] + rules[1..];
      if Overridden(rules[0], run) && rules[0].tool == tool && rules[0].pattern == pattern {
        var l :| l in run && SameKey(rules[0], l);
        NoDecision(run, l);
      }
      OneDecision(rules[0], tool, pattern);
    }
  }

  lemma OneDecision(r: Rule, tool: string, pattern: ArgPattern)
    ensures DecisionFor([r], tool, pattern) == if r.tool == tool && r.pattern == pattern then Some(r.decision) else None
  {
    assert [r][..0] == [];
  }

  lemma {:induction false} NoDecision(rules: seq<Rule>, r: Rule)
    requires r in rules
    ensures DecisionFor(rules, r.tool, r.pattern).Some?
  {
    var n := |rules| - 1;
    assert rules == rules[..n] + [rules[n]];
    if rules[n] != r {
      NoDecision(rules[..n], r);
    }
  }

  lemma {:induction false} DecisionForLatest(run: seq<Rule>, tool: string, pattern: ArgPattern)
    ensures DecisionFor(Latest(run), tool, pattern) == DecisionFor(run, tool, pattern)
  {
    if run != [] {
      var head := if Overridden(run[0], run[1..]) then [] else [run[0]];
      DecisionForLatest(run[1..], tool, pattern);
      DecisionForJoin(head, Latest(run[1..]), tool, pattern);
      DecisionForJoin([run[0]], run[1..], tool, pattern);
      assert run == [run[0]] + run[1..];
      OneDecision(run[0], tool, pattern);
      if head == [] {
        var l :| l in run[1..] && SameKey(run[0], l);
        NoDecision(run[1..], l);
      }
    }
  }

  /** For every key the last recording counts, and keys that were not recorded keep their decision. */
  lemma LastRecordingCounts(rules: seq<Rule>, run: seq<Rule>, tool: string, pattern: ArgPattern)
    ensures DecisionFor(Recorded(rules, run), tool, pattern)
         == if DecisionFor(run, tool, pattern).Some? then DecisionFor(run, tool, pattern)
            else DecisionFor(rules, tool, pattern)
  {
    hide Untouched, Latest, DecisionFor;
    DecisionForJoin(Untouched(rules, run), Latest(run), tool, pattern);
    DecisionForLatest(run, tool, pattern);
    if DecisionFor(run, tool, pattern).None? {
      DecisionForUntouched(rules, run, tool, pattern);
    }
  }

  /** A decision that was just recorded governs the call it was recorded for exactly when the other rules
      are silent on that call or agree with it. */
  lemma RecordingTakesEffect(rules: seq<Rule>, tool: string, args: Value, d: Decision)
    ensures var r := Rule(tool, ForCall(tool, args), d);
            var others := MatchFirst(Untouched(rules, [r]), tool, args);
            MatchFirst(Recorded(rules, [r]), tool, args) == Some(d) <==> others.None? || others == Some(d)
  {
    var r := Rule(tool, ForCall(tool, args), d);
    RecordedPatternMatches(tool, args);
    assert Latest([r]) == [r];
    MatchFirstJoin(Untouched(rules, [r]), [r], tool, args);
  }

  // ---------------------------------------------------------------------------------------------
  // The policy
  // ---------------------------------------------------------------------------------------------

  datatype BashNetworkPolicy = Ask | Always | Never

  datatype BashNetworkChoice = Once | AlwaysThisSession | DenyOnce | DenyAlways | Cancelled

  predicate Sticky(c: BashNetworkChoice) {
    c == AlwaysThisSession || c == DenyAlways
  }

  predicate Allows(c: BashNetworkChoice) {
    c == Once || c == AlwaysThisSession
  }

  datatype Recording = Recording(tool: string, args: Value, decision: Decision, written: bool)

  function RuleOf(c: Recording): Rule {
    Rule(c.tool, ForCall(c.tool, c.args), c.decision)
  }

  function RulesOf(run: seq<Recording>): seq<Rule> {
    seq(|run|, k requires 0 <= k < |run| => RuleOf(run[k]))
  }

  class PermissionPolicy {
    var tomlRules: seq<Rule>
    /** What is in `permissions.toml`. */
    var disk: PermissionsToml
    const bashNetwork: BashNetworkPolicy
    var bashNetworkDecision: Option<bool>

    /** A policy as it starts: the rules are those on disk. */
    constructor (disk: PermissionsToml, bashNetwork: BashNetworkPolicy)
      ensures this.disk == disk && this.bashNetwork == bashNetwork
      ensures tomlRules == Loaded(disk.allow, Allow) + Loaded(disk.deny, Deny) && bashNetworkDecision == None
    {
      this.disk := disk;
      this.bashNetwork := bashNetwork;
      bashNetworkDecision := None;
      new;
      tomlRules := RulesFromPermissions(disk.allow, disk.deny);
    }

    /** Drops every rule with the key of `rule`. */
    method Retain(rule: Rule)
      modifies `tomlRules
      ensures tomlRules == Untouched(old(tomlRules), [rule])
    {
      var kept: seq<Rule> := [];
      for k := 0 to |tomlRules|
        invariant tomlRules == old(tomlRules)
        invariant Untouched(tomlRules, [rule]) == kept + Untouched(tomlRules[k..], [rule])
      {
        assert tomlRules[k..][1..] == tomlRules[k + 1..];
        assert Overridden(tomlRules[k], [rule]) <==> SameKey(tomlRules[k], rule) by {
          assert rule in [rule];
        }
        if !SameKey(tomlRules[k], rule) {
          kept := kept + [tomlRules[k]];
        }
      }
      tomlRules := kept;
    }

    /** Records a decision; `written` says whether the file could be written. */
    method AddRule(tool: string, args: Value, decision: Decision, written: bool)
      modifies `tomlRules, `disk
      ensures tomlRules == Recorded(old(tomlRules), [Rule(tool, ForCall(tool, args), decision)])
      ensures disk == if written then PermissionsToml(Saved(With(tomlRules, Allow)), Saved(With(tomlRules, Deny)))
                      else old(disk)
    {
      var rule := Rule(tool, ForCall(tool, args), decision);
      Retain(rule);
      assert Latest([rule]) == [rule];
      tomlRules := tomlRules + [rule];
      var serialized := PermissionsFromRules(tomlRules);
      if written {
        disk := serialized;
      }
    }

    /** The session's answer, asking at most once; `prompt` is what the user would answer. */
    method ResolveBashNetwork(prompt: BashNetworkChoice) returns (allow: bool, prompted: bool)
      modifies `bashNetworkDecision
      ensures prompted <==> bashNetwork.Ask? && old(bashNetworkDecision).None?
      ensures bashNetwork.Ask? ==> allow == if prompted then Allows(prompt) else old(bashNetworkDecision).value
      ensures !bashNetwork.Ask? ==> allow == bashNetwork.Always?
      ensures bashNetworkDecision
           == if !bashNetwork.Ask? || (prompted && Sticky(prompt)) then Some(allow) else old(bashNetworkDecision)
    {
      prompted := false;
      match bashNetwork {
        case Always =>
          bashNetworkDecision := Some(true);
          allow := true;
        case Never =>
          bashNetworkDecision := Some(false);
          allow := false;
        case Ask =>
          if bashNetworkDecision.Some? {
            return bashNetworkDecision.value, false;
          }
          prompted := true;
          match prompt {
            case Once => allow := true;
            case AlwaysThisSession =>
              bashNetworkDecision := Some(true);
              allow := true;
            case DenyOnce => allow := false;
            case Cancelled => allow := false;
            case DenyAlways =>
              bashNetworkDecision := Some(false);
              allow := false;
          }
      }
    }
  }

  /** Any run of recordings: what the rules become, and what the next session starts with if the last write
      went through. */
  method RecordAll(disk: PermissionsToml, run: seq<Recording>) returns (rules: seq<Rule>, next: seq<Rule>)
    ensures rules == Recorded(Loaded(disk.allow, Allow) + Loaded(disk.deny, Deny), RulesOf(run))
    ensures run != [] && run[|run| - 1].written ==> next == Reloaded(rules)
  {
    hide Recorded, Saved;
    var policy := new PermissionPolicy(disk, Ask);
    ghost var start := policy.tomlRules;
    RecordedNothing(start);
    assert RulesOf(run[..0]) == [];
    for k := 0 to |run|
      invariant fresh(policy)
      invariant policy.tomlRules == Recorded(start, RulesOf(run[..k]))
      invariant k > 0 && run[k - 1].written ==>
        policy.disk == PermissionsToml(Saved(With(policy.tomlRules, Allow)), Saved(With(policy.tomlRules, Deny)))
      modifies policy
    {
      RecordedJoin(start, RulesOf(run[..k]), [RuleOf(run[k])]);
      assert RulesOf(run[..k + 1]) == RulesOf(run[..k]) + [RuleOf(run[k])];
      policy.AddRule(run[k].tool, run[k].args, run[k].decision, run[k].written);
    }
    assert run[..|run|] == run;
    rules := policy.tomlRules;
    var restarted := new PermissionPolicy(policy.disk, Ask);
    next := restarted.tomlRules;
    LoadSaved(With(rules, Allow), Allow);
    LoadSaved(With(rules, Deny), Deny);
  }

  /** A session of network questions under `Ask`: the user is asked up to the first lasting answer and never
      again, and from then on that answer stands. */
  method ResolveAll(answers: seq<BashNetworkChoice>) returns (allowed: seq<bool>, prompts: seq<bool>)
    ensures |allowed| == |prompts| == |answers|
    ensures forall k | 0 <= k < |answers| ::
      prompts[k] <==> forall j | 0 <= j < k :: !Sticky(answers[j])
    ensures forall k | 0 <= k < |answers| && prompts[k] :: allowed[k] == Allows(answers[k])
    ensures forall i, k | 0 <= i < k < |answers| && prompts[i] && Sticky(answers[i]) :: allowed[k] == Allows(answers[i])
  {
    var policy := new PermissionPolicy(PermissionsToml([], []), Ask);
    allowed, prompts := [], [];
    for k := 0 to |answers|
      invariant fresh(policy) && policy.bashNetwork == Ask
      invariant |allowed| == |prompts| == k
      invariant policy.bashNetworkDecision.None? <==> forall j | 0 <= j < k :: !Sticky(answers[j])
      invariant forall i | 0 <= i < k :: prompts[i] <==> forall j | 0 <= j < i :: !Sticky(answers[j])
      invariant forall i | 0 <= i < k && prompts[i] :: allowed[i] == Allows(answers[i])
      invariant forall i | 0 <= i < k && prompts[i] && Sticky(answers[i]) ::
        policy.bashNetworkDecision == Some(Allows(answers[i]))
      invariant forall i, j | 0 <= i < j < k && prompts[i] && Sticky(answers[i]) :: allowed[j] == Allows(answers[i])
      modifies policy
    {
      var allow, prompted := policy.ResolveBashNetwork(answers[k]);
      allowed, prompts := allowed + [allow], prompts + [prompted];
    }
  }
}
