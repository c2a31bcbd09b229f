/** Name rewriting of questions, and the reverter that undoes it in the answers. */
module Rewrite {
  import opened Bytes
  import opened Options

  const ROOT: Str := [DOT]

  predicate HasSuffix(s: Str, suffix: Str) {
    |suffix| <= |s| && s[|s| - |suffix|..] == suffix
  }

  predicate HasPrefix(s: Str, prefix: Str) {
    |prefix| <= |s| && s[..|prefix|] == prefix
  }

  // ----- string rewriters -----

  /** `remapStringRewriter` and `suffixStringRewriter`. */
  datatype Rewriter = Remap(orig: Str, replacement: Str) | Resuffix(suffix: Str, replacement: Str)

  function RewriteString(r: Rewriter, src: Str): Str {
    match r
    case Remap(orig, replacement) =>
      if src == orig then replacement
      else if HasSuffix(src, [DOT] + orig) then src[..|src| - |orig|] + replacement
      else src
    case Resuffix(suffix, replacement) =>
      if HasSuffix(src, suffix) then src[..|src| - |suffix|] + replacement else src
  }

  // ----- rules -----

  predicate IsLower(s: Str) {
    ToLower(s) == s
  }

  /** `strings.Contains`. */
  predicate Contains(s: Str, part: Str) {
    HasPrefix(s, part) || (s != [] && Contains(s[1..], part))
  }

  /** `strings.ReplaceAll` for a part that is not empty: left to right, without overlaps. */
  function ReplaceAll(s: Str, part: Str, put: Str): Str
    requires part != []
    decreases |s|
  {
    if s == [] then []
    else if HasPrefix(s, part) then put + ReplaceAll(s[|part|..], part, put)
    else [s[0]] + ReplaceAll(s[1..], part, put)
  }

  /** `strconv.Itoa`. */
  function Decimal(k: nat): Str {
    if k < 10 then [48 + k] else Decimal(k / 10) + [48 + k % 10]
  }

  /** The placeholder of group `k`: its number in braces. */
  function Placeholder(k: nat): (r: Str)
    ensures r != []
  {
    [123] + Decimal(k) + [125]
  }

  /** The placeholders from `k` on are replaced one after the other. */
  function Expanded(template: Str, groups: seq<Str>, k: nat): Str
    decreases |groups| - k
  {
    if k >= |groups| then template else Expanded(ReplaceAll(template, Placeholder(k), groups[k]), groups, k + 1)
  }

  /**
   * The name rules that revert automatically. The `groups` of a regular expression are its submatches in a name, none if
   * it does not match. `stop` is the mode.
   */
  datatype Rule =
    | Exact(from: Str, to: Str, stop: bool)
    | Prefix(prefix: Str, replacement: Str, stop: bool)
    | Suffix(suffix: Str, replacement: Str, stop: bool)
    | Substring(substring: Str, replacement: Str, stop: bool)
    | Regex(groups: Str -> seq<Str>, replacement: Str, stop: bool)

  /** `plugin.Name.Normalize`: lower-cased and with a closing dot. */
  predicate Normal(s: Str) {
    IsLower(s) && HasSuffix(s, ROOT)
  }

  ghost predicate IsPart(g: Str, s: Str) {
    exists i, j :: 0 <= i <= j <= |s| && g == s[i..j]
  }

  /** `newNameRule` normalises all arguments but the regular expression itself, whose submatches are parts of the name. */
  ghost predicate WellMade(rule: Rule) {
    match rule
    case Exact(from, to, _) => Normal(from) && Normal(to)
    case Prefix(prefix, replacement, _) => Normal(prefix) && Normal(replacement)
    case Suffix(suffix, replacement, _) => Normal(suffix) && Normal(replacement)
    case Substring(substring, replacement, _) => Normal(substring) && Normal(replacement)
    case Regex(groups, replacement, _) => Normal(replacement) && forall n, k :: 0 <= k < |groups(n)| ==> IsPart(groups(n)[k], n)
  }

  /** The rule never rewrites to the root. */
  ghost predicate OffRoot(rule: Rule) {
    match rule
    case Exact(_, to, _) => to != ROOT
    case Prefix(_, replacement, _) => replacement != ROOT
    case Suffix(_, replacement, _) => replacement != ROOT
    case Substring(_, replacement, _) => replacement != ROOT
    case Regex(groups, replacement, _) => forall n :: groups(n) != [] ==> Expanded(replacement, groups(n), 0) != ROOT
  }

  /** A rule that fired: the lower-cased name it saw, the name it made of it, and the rewriter for the answers. */
  datatype Stage = Stage(before: Str, after: Str, back: Rewriter)

  function Automatic(before: Str, after: Str): Stage {
    Stage(before, after, Remap(after, before))
  }

  /** The rules' `Rewrite` on the lower-cased name of the question. */
  function Fire(rule: Rule, name: Str): Option<Stage> {
    match rule
    case Exact(from, to, _) => if from == name then Some(Automatic(name, to)) else None
    case Prefix(prefix, replacement, _) =>
      if HasPrefix(name, prefix) then Some(Automatic(name, replacement + name[|prefix|..])) else None
    case Suffix(suffix, replacement, _) =>
      if HasSuffix(name, suffix)
      then Some(Stage(name, name[..|name| - |suffix|] + replacement, Resuffix(replacement, suffix)))
      else None
    case Substring(substring, replacement, _) =>
      // normalised arguments are not empty
      if substring != [] && Contains(name, substring) then Some(Automatic(name, ReplaceAll(name, substring, replacement))) else None
    case Regex(groups, replacement, _) =>
      if groups(name) != [] then Some(Automatic(name, Expanded(replacement, groups(name), 0))) else None
  }

  /** The loop of `regexNameRule.Rewrite` over the submatches. */
  method ExpandGroups(template: Str, groups: seq<Str>) returns (r: Str)
    ensures r == Expanded(template, groups, 0)
  {
    r := template;
    for k := 0 to |groups|
      invariant Expanded(r, groups, k) == Expanded(template, groups, 0)
    {
      r := ReplaceAll(r, Placeholder(k), groups[k]);
    }
  }

  /** `Rewrite` of a rule. */
  method RewriteQuestion(rule: Rule, name: Str) returns (fired: Option<Stage>)
    ensures fired == Fire(rule, name)
  {
    if rule.Regex? {
      var groups := rule.groups(name);
      if groups == [] {
        return None;
      }
      var after := ExpandGroups(rule.replacement, groups);
      return Some(Automatic(name, after));
    }
    return Fire(rule, name);
  }

  /**
   * What a rule fires on and what it makes of the name: the part it names is replaced, and all that stands before or after
   * that part stays.
   */
  lemma FireMakes(rule: Rule, name: Str)
    requires WellMade(rule)
    ensures rule.Exact? ==> (Fire(rule, name).Some? <==> name == rule.from) && (Fire(rule, name).Some? ==> Fire(rule, name).value.after == rule.to)
    ensures rule.Prefix? ==> forall rest: Str :: name == rule.prefix + rest ==>
      Fire(rule, name).Some? && Fire(rule, name).value.after == rule.replacement + rest
    ensures rule.Suffix? ==> forall stem: Str :: name == stem + rule.suffix ==>
      Fire(rule, name).Some? && Fire(rule, name).value.after == stem + rule.replacement
    ensures rule.Prefix? && Fire(rule, name).Some? ==> HasPrefix(name, rule.prefix)
    ensures rule.Suffix? && Fire(rule, name).Some? ==> HasSuffix(name, rule.suffix)
    ensures rule.Substring? ==> (Fire(rule, name).Some? <==> Contains(name, rule.substring))
    ensures rule.Regex? ==> (Fire(rule, name).Some? <==> rule.groups(name) != [])
    ensures Fire(rule, name).Some? ==> Fire(rule, name).value.before == name
  {
    if rule.Prefix? {
      forall rest: Str | name == rule.prefix + rest ensures HasPrefix(name, rule.prefix) && name[|rule.prefix|..] == rest {
        assert name[..|rule.prefix|] == rule.prefix;
      }
    }
    if rule.Suffix? {
      forall stem: Str | name == stem + rule.suffix ensures HasSuffix(name, rule.suffix) && name[..|name| - |rule.suffix|] == stem {
        assert name[|name| - |rule.suffix|..] == rule.suffix;
      }
    }
  }

  /** A substring is in a name exactly when the name is something, the substring, and something more. */
  lemma {:induction false} ContainsSplits(s: Str, part: Str) returns (a: Str, b: Str)
    requires Contains(s, part)
    ensures s == a + part + b
    decreases |s|
  {
    if HasPrefix(s, part) {
      a, b := [], s[|part|..];
    } else {
      a, b := ContainsSplits(s[1..], part);
      assert s == [s[0]] + s[1..];
      a := [s[0]] + a;
    }
  }

  lemma {:induction false} SplitContains(a: Str, part: Str, b: Str)
    ensures Contains(a + part + b, part)
    decreases |a|
  {
    var s := a + part + b;
    if a == [] {
      assert s == part + b && s[..|part|] == part;
    } else {
      SplitContains(a[1..], part, b);
      assert s[1..] == a[1..] + part + b;
    }
  }

  /** Nothing to replace, nothing changes. */
  lemma {:induction false} NothingReplaced(a: Str, part: Str, put: Str)
    requires part != [] && !Contains(a, part)
    ensures ReplaceAll(a, part, put) == a
    decreases |a|
  {
    if a != [] {
      NothingReplaced(a[1..], part, put);
      assert a == [a[0]] + a[1..];
    }
  }

  lemma CopiedOn(s: Str, part: Str, put: Str)
    requires part != [] && s != [] && !HasPrefix(s, part)
    ensures ReplaceAll(s, part, put) == [s[0]] + ReplaceAll(s[1..], part, put)
  {
  }

  /** The first match, behind a piece in which none starts, is replaced, and then the rest. */
  lemma {:induction false} FirstReplaced(a: Str, part: Str, b: Str, put: Str)
    requires part != [] && forall i :: 0 <= i < |a| ==> !HasPrefix((a + part + b)[i..], part)
    ensures ReplaceAll(a + part + b, part, put) == a + put + ReplaceAll(b, part, put)
    decreases |a|
  {
    var s, rest := a + part + b, ReplaceAll(b, part, put);
    if a == [] {
      assert s == part + b && s[..|part|] == part && s[|part|..] == b;
      assert [] + put + rest == put + rest;
    } else {
      assert s[1..] == a[1..] + part + b;
      forall i | 0 <= i < |a[1..]| ensures !HasPrefix((a[1..] + part + b)[i..], part) {
        assert s[1..][i..] == s[i + 1..];
      }
      FirstReplaced(a[1..], part, b, put);
      assert s[0..] == s;
      CopiedOn(s, part, put);
      assert [s[0]] + (a[1..] + put + rest) == a + put + rest;
    }
  }

  /** The number that a string of decimal digits stands for. */
  function ValueOf(s: Str): int {
    if s == [] then 0 else 10 * ValueOf(s[..|s| - 1]) + s[|s| - 1] - 48
  }

  lemma {:induction false} DecimalStandsFor(k: nat)
    ensures ValueOf(Decimal(k)) == k && forall i :: 0 <= i < |Decimal(k)| ==> 48 <= Decimal(k)[i] <= 57
  {
    if k >= 10 {
      DecimalStandsFor(k / 10);
      assert Decimal(k)[..|Decimal(k)| - 1] == Decimal(k / 10);
    }
  }

  /** Without placeholders the replacement is taken as it is. */
  lemma {:induction false} ExpandedPlain(template: Str, groups: seq<Str>, k: nat)
    requires forall i :: k <= i < |groups| ==> !Contains(template, Placeholder(i))
    ensures Expanded(template, groups, k) == template
    decreases |groups| - k
  {
    if k < |groups| {
      NothingReplaced(template, Placeholder(k), groups[k]);
      ExpandedPlain(template, groups, k + 1);
    }
  }

  /** The result of the rule loop: an invalid name, or the question handed on with the stages to be undone. */
  datatype Outcome = Invalid | Handed(name: Str, stages: seq<Stage>)

  /** The rule loop as a function: rules fire one after the other, up to a stop rule or an invalid name. */
  function Rewritten(rules: seq<Rule>, name: Str, valid: Str -> bool): Outcome {
    if rules == [] then Handed(name, [])
    else
      match Fire(rules[0], ToLower(name))
      case None => Rewritten(rules[1..], name, valid)
      case Some(st) =>
        if !valid(st.after) then Invalid
        else if rules[0].stop then Handed(st.after, [st])
        else
          match Rewritten(rules[1..], st.after, valid)
          case Invalid => Invalid
          case Handed(n, sts) => Handed(n, [st] + sts)
  }

  datatype ResponseRule = OnName(rw: Rewriter) | OnValue(rw: Rewriter)

  /** The response rules of the stages: one for names and one for values each. */
  function ResponseRules(stages: seq<Stage>): (rs: seq<ResponseRule>)
    ensures |rs| == 2 * |stages|
  {
    if stages == [] then [] else ResponseRules(stages[..|stages| - 1]) + [OnName(stages[|stages| - 1].back), OnValue(stages[|stages| - 1].back)]
  }

  /** The rest of the loop from a question and the stages so far. */
  function Resume(done: seq<Stage>, rest: Outcome): Outcome {
    match rest case Invalid => Invalid case Handed(n, sts) => Handed(n, done + sts)
  }

  /** The rule loop of `ServeDNS`: the question's name is overwritten and response rules are collected. */
  method ServeRules(rules: seq<Rule>, original: Str, valid: Str -> bool)
    returns (ok: bool, name: Str, responseRules: seq<ResponseRule>, ghost stages: seq<Stage>)
    ensures !ok ==> Rewritten(rules, original, valid) == Invalid && name == original
    ensures ok ==> Rewritten(rules, original, valid) == Handed(name, stages) && responseRules == ResponseRules(stages)
  {
    name, responseRules, stages := original, [], [];
    for i := 0 to |rules|
      invariant responseRules == ResponseRules(stages)
      invariant Rewritten(rules, original, valid) == Resume(stages, Rewritten(rules[i..], name, valid))
    {
      var fired := RewriteQuestion(rules[i], ToLower(name));
      RuleStep(rules, i, stages, name, valid);
      if fired.Some? {
        if !valid(fired.value.after) {
          return false, original, [], [];
        }
        name := fired.value.after;
        responseRules := responseRules + [OnName(fired.value.back), OnValue(fired.value.back)];
        assert (stages + [fired.value])[..|stages|] == stages;
        stages := stages + [fired.value];
        if rules[i].stop {
          return true, name, responseRules, stages;
        }
      }
    }
    assert stages + [] == stages;
    return true, name, responseRules, stages;
  }

  /**
   * The first rule that fires decides: an invalid name ends everything, a stop rule ends the rewriting, and after any other
   * rule the rules behind it go on with the new name. If no rule fires the name stays.
   */
  lemma {:induction false} FirstToFire(rules: seq<Rule>, name: Str, valid: Str -> bool, k: nat)
    requires k <= |rules| && forall i :: 0 <= i < k ==> Fire(rules[i], ToLower(name)).None?
    ensures k == |rules| ==> Rewritten(rules, name, valid) == Handed(name, [])
    ensures k < |rules| && Fire(rules[k], ToLower(name)).Some? ==>
      var st := Fire(rules[k], ToLower(name)).value;
      && (!valid(st.after) ==> Rewritten(rules, name, valid) == Invalid)
      && (valid(st.after) && rules[k].stop ==> Rewritten(rules, name, valid) == Handed(st.after, [st]))
      && (valid(st.after) && !rules[k].stop ==>
            Rewritten(rules, name, valid) ==
            match Rewritten(rules[k + 1..], st.after, valid) case Invalid => Invalid case Handed(n, sts) => Handed(n, [st] + sts))
    decreases |rules|
  {
    if k > 0 {
      assert forall i :: 0 <= i < k - 1 ==> rules[1..][i] == rules[i + 1];
      FirstToFire(rules[1..], name, valid, k - 1);
      assert k < |rules| ==> rules[1..][k..] == rules[k + 1..] && rules[1..][k - 1] == rules[k];
    }
  }

  /** One turn of the rule loop. */
  lemma RuleStep(rules: seq<Rule>, i: nat, done: seq<Stage>, name: Str, valid: Str -> bool)
    requires i < |rules|
    ensures Resume(done, Rewritten(rules[i..], name, valid)) ==
      match Fire(rules[i], ToLower(name))
      case None => Resume(done, Rewritten(rules[i + 1..], name, valid))
      case Some(st) =>
        if !valid(st.after) then Invalid
        else if rules[i].stop then Handed(st.after, done + [st])
        else Resume(done + [st], Rewritten(rules[i + 1..], st.after, valid))
  {
    assert rules[i..][1..] == rules[i + 1..] && rules[i..][0] == rules[i];
    var fired := Fire(rules[i], ToLower(name));
    if fired.Some? {
      match Rewritten(rules[i + 1..], fired.value.after, valid)
      case Invalid =>
      case Handed(n, sts) => assert done + ([fired.value] + sts) == done + [fired.value] + sts;
    }
  }

  // ----- the reverter -----

  /** A record of the answer: its name and, for types whose data is a name, that name; else `value` is empty. */
  datatype Rec = Rec(name: Str, value: Str)

  function Respond(rule: ResponseRule, rr: Rec): Rec {
    match rule
    case OnName(rw) => rr.(name := RewriteString(rw, rr.name))
    case OnValue(rw) => if rr.value == [] then rr else rr.(value := RewriteString(rw, rr.value))
  }

  /** The rules applied from the last to the first. */
  function Backwards(rules: seq<ResponseRule>, rr: Rec): Rec {
    if rules == [] then rr else Backwards(rules[..|rules| - 1], Respond(rules[|rules| - 1], rr))
  }

  method RewriteResourceRecord(rules: seq<ResponseRule>, rr: Rec) returns (r: Rec)
    ensures r == Backwards(rules, rr)
  {
    r := rr;
    var i := |rules| - 1;
    assert rules[..|rules|] == rules;
    while i >= 0
      invariant -1 <= i < |rules|
      invariant Backwards(rules[..i + 1], r) == Backwards(rules, rr)
    {
      assert rules[..i + 1][..i] == rules[..i];
      r := Respond(rules[i], r);
      i := i - 1;
    }
  }

  method RewriteSection(rules: seq<ResponseRule>, section: array<Rec>)
    modifies section
    ensures forall i :: 0 <= i < section.Length ==> section[i] == Backwards(rules, old(section[i]))
  {
    for k := 0 to section.Length
      invariant forall i :: 0 <= i < k ==> section[i] == Backwards(rules, old(section[i]))
      invariant forall i :: k <= i < section.Length ==> section[i] == old(section[i])
    {
      section[k] := RewriteResourceRecord(rules, section[k]);
    }
  }

  /** A reply with its question's name and three sections. */
  class Reply {
    var question: Str
    const ns: array<Rec>
    const answer: array<Rec>
    const extra: array<Rec>

    constructor (question: Str, ns: array<Rec>, answer: array<Rec>, extra: array<Rec>)
      ensures this.question == question && this.ns == ns && this.answer == answer && this.extra == extra
    {
      this.question, this.ns, this.answer, this.extra := question, ns, answer, extra;
    }
  }

  /** `ResponseReverter.WriteMsg` on its private copy of the reply. */
  method WriteMsg(original: Str, rules: seq<ResponseRule>, restore: bool, res: Reply)
    requires res.ns != res.answer && res.ns != res.extra && res.answer != res.extra
    modifies res, res.ns, res.answer, res.extra
    ensures res.question == if restore then original else old(res.question)
    ensures forall i :: 0 <= i < res.ns.Length ==> res.ns[i] == Backwards(rules, old(res.ns[i]))
    ensures forall i :: 0 <= i < res.answer.Length ==> res.answer[i] == Backwards(rules, old(res.answer[i]))
    ensures forall i :: 0 <= i < res.extra.Length ==> res.extra[i] == Backwards(rules, old(res.extra[i]))
  {
    if restore {
      res.question := original;
    }
    if |rules| > 0 {
      RewriteSection(rules, res.ns);
      RewriteSection(rules, res.answer);
      RewriteSection(rules, res.extra);
    }
  }

  // ----- the reverter undoes the rules -----

  /** A name, or a value, through all the stages from the last to the first. */
  function Revert(stages: seq<Stage>, x: Str): Str {
    if stages == [] then x else Revert(stages[..|stages| - 1], RewriteString(stages[|stages| - 1].back, x))
  }

  lemma BackwardsPair(front: seq<ResponseRule>, a: ResponseRule, b: ResponseRule, rr: Rec)
    ensures Backwards(front + [a, b], rr) == Backwards(front, Respond(a, Respond(b, rr)))
  {
    var n := |front|;
    assert (front + [a, b])[..n + 1] == front + [a];
    assert (front + [a])[..n] == front;
  }

  lemma {:induction false} BackwardsReverts(stages: seq<Stage>, rr: Rec)
    ensures Backwards(ResponseRules(stages), rr).name == Revert(stages, rr.name)
    ensures rr.value == [] ==> Backwards(ResponseRules(stages), rr).value == []
    ensures NeverEmpty(stages, rr.value) ==> Backwards(ResponseRules(stages), rr).value == Revert(stages, rr.value)
    decreases |stages|
  {
    if stages != [] {
      var n := |stages| - 1;
      var back := stages[n].back;
      BackwardsPair(ResponseRules(stages[..n]), OnName(back), OnValue(back), rr);
      BackwardsReverts(stages[..n], Respond(OnName(back), Respond(OnValue(back), rr)));
    }
  }

  /** The value is a name all the way back. */
  predicate NeverEmpty(stages: seq<Stage>, x: Str) {
    x != [] && (stages == [] || NeverEmpty(stages[..|stages| - 1], RewriteString(stages[|stages| - 1].back, x)))
  }

  /** The stages follow on from each other, from the lower-cased original name to the final one. */
  ghost predicate Chain(stages: seq<Stage>, original: Str, final: Str) {
    if stages == [] then final == original
    else
      var n := |stages| - 1;
      && stages[n].after == final && StageOk(stages[n])
      && (n == 0 ==> stages[n].before == ToLower(original))
      && (n > 0 ==> stages[n].before == stages[n - 1].after && Chain(stages[..n], original, stages[n - 1].after))
  }

  /** The rewriter belongs to the stage. */
  ghost predicate StageOk(st: Stage) {
    && st.before != []
    && (|| st.back == Remap(st.after, st.before)
        || (st.back.Resuffix? && HasSuffix(st.back.suffix, ROOT) && HasSuffix(st.back.replacement, ROOT)
            && exists stem: Str :: st.after == stem + st.back.suffix && st.before == stem + st.back.replacement))
  }

  lemma FireOk(rule: Rule, name: Str)
    requires WellMade(rule) && name != [] && Fire(rule, name).Some?
    ensures StageOk(Fire(rule, name).value) && Fire(rule, name).value.before == name
  {
    if rule.Suffix? {
      var stem := name[..|name| - |rule.suffix|];
      assert name == stem + rule.suffix;
    }
  }

  lemma {:induction false} ChainPrepend(st: Stage, stages: seq<Stage>, original: Str, final: Str)
    requires StageOk(st) && IsLower(st.after) && st.before == ToLower(original) && Chain(stages, st.after, final)
    ensures Chain([st] + stages, original, final)
    decreases |stages|
  {
    var all := [st] + stages;
    if stages != [] {
      var n := |stages| - 1;
      assert all[..n + 1] == [st] + stages[..n];
      assert Chain(stages[..n], st.after, if n > 0 then stages[n - 1].after else st.after);
      ChainPrepend(st, stages[..n], original, if n > 0 then stages[n - 1].after else st.after);
    }
  }

  /** The rule loop leaves a chain of stages. */
  lemma {:induction false} RewrittenChain(rules: seq<Rule>, name: Str, valid: Str -> bool)
    requires name != [] && !valid([]) && forall i :: 0 <= i < |rules| ==> WellMade(rules[i])
    ensures match Rewritten(rules, name, valid) case Invalid => true case Handed(final, stages) => Chain(stages, name, final) && final != []
    decreases |rules|
  {
    if rules != [] {
      var fired := Fire(rules[0], ToLower(name));
      if fired.None? {
        RewrittenChain(rules[1..], name, valid);
      } else if valid(fired.value.after) {
        FireOk(rules[0], ToLower(name));
        LowerTwice(name);
        FireLower(rules[0], ToLower(name));
        if rules[0].stop {
          ChainPrepend(fired.value, [], name, fired.value.after);
          assert [fired.value] + [] == [fired.value];
        } else {
          RewrittenChain(rules[1..], fired.value.after, valid);
          match Rewritten(rules[1..], fired.value.after, valid)
          case Invalid =>
          case Handed(final, stages) => ChainPrepend(fired.value, stages, name, final);
        }
      }
    }
  }

  // ----- no rule brings capitals -----

  lemma LowerParts(a: Str, b: Str)
    ensures IsLower(a + b) <==> IsLower(a) && IsLower(b)
  {
    var c := a + b;
    assert forall i :: 0 <= i < |a| ==> c[i] == a[i];
    assert forall i :: 0 <= i < |b| ==> c[|a| + i] == b[i];
    if IsLower(c) {
      assert forall i :: 0 <= i < |a| ==> ToLower(a)[i] == ToLower(c)[i];
      assert forall i :: 0 <= i < |b| ==> ToLower(b)[i] == ToLower(c)[|a| + i];
    }
  }

  lemma LowerTwice(s: Str)
    ensures IsLower(ToLower(s))
  {
  }

  lemma PartLower(g: Str, s: Str)
    requires IsPart(g, s) && IsLower(s)
    ensures IsLower(g)
  {
    var i, j :| 0 <= i <= j <= |s| && g == s[i..j];
    assert s == s[..i] + (g + s[j..]);
    LowerParts(s[..i], g + s[j..]);
    LowerParts(g, s[j..]);
  }

  lemma {:induction false} ReplaceAllLower(s: Str, part: Str, put: Str)
    requires part != [] && IsLower(s) && IsLower(put)
    ensures IsLower(ReplaceAll(s, part, put))
    decreases |s|
  {
    if s != [] {
      var n := if HasPrefix(s, part) then |part| else 1;
      assert s == s[..n] + s[n..];
      LowerParts(s[..n], s[n..]);
      ReplaceAllLower(s[n..], part, put);
      LowerParts(if HasPrefix(s, part) then put else [s[0]], ReplaceAll(s[n..], part, put));
      assert s[..1] == [s[0]];
    }
  }

  lemma {:induction false} ExpandedLower(template: Str, groups: seq<Str>, k: nat)
    requires IsLower(template) && forall i :: 0 <= i < |groups| ==> IsLower(groups[i])
    ensures IsLower(Expanded(template, groups, k))
    decreases |groups| - k
  {
    if k < |groups| {
      ReplaceAllLower(template, Placeholder(k), groups[k]);
      ExpandedLower(ReplaceAll(template, Placeholder(k), groups[k]), groups, k + 1);
    }
  }

  /** What a rule makes of a lower-cased name is lower-cased. */
  lemma FireLower(rule: Rule, name: Str)
    requires WellMade(rule) && IsLower(name) && Fire(rule, name).Some?
    ensures IsLower(Fire(rule, name).value.after)
  {
    match rule
    case Exact(_, _, _) =>
    case Prefix(prefix, replacement, _) =>
      LowerParts(prefix, name[|prefix|..]);
      assert name == prefix + name[|prefix|..];
      LowerParts(replacement, name[|prefix|..]);
    case Suffix(suffix, replacement, _) =>
      var stem := name[..|name| - |suffix|];
      assert name == stem + suffix;
      LowerParts(stem, suffix);
      LowerParts(stem, replacement);
    case Substring(substring, replacement, _) => ReplaceAllLower(name, substring, replacement);
    case Regex(groups, replacement, _) =>
      forall k | 0 <= k < |groups(name)| ensures IsLower(groups(name)[k]) { PartLower(groups(name)[k], name); }
      ExpandedLower(replacement, groups(name), 0);
  }

  // ----- one stage -----

  /** The subdomain `p` of a name: the root is not repeated. */
  function Sub(p: Str, name: Str): Str {
    if name == ROOT then p + ROOT else p + [DOT] + name
  }

  lemma StageUndone(st: Stage)
    requires StageOk(st)
    ensures RewriteString(st.back, st.after) == st.before
  {
    if st.back.Resuffix? {
      var stem :| st.after == stem + st.back.suffix && st.before == stem + st.back.replacement;
      assert st.after[..|st.after| - |st.back.suffix|] == stem;
    }
  }

  /** A label, or several, without a closing dot. */
  predicate IsStem(p: Str) {
    p != [] && p[|p| - 1] != DOT
  }

  lemma RemapSub(orig: Str, replacement: Str, p: Str)
    ensures RewriteString(Remap(orig, replacement), p + [DOT] + orig) == p + [DOT] + replacement
  {
    var src := p + [DOT] + orig;
    assert src[|src| - |orig| - 1..] == [DOT] + orig;
    assert src[..|src| - |orig|] == p + [DOT];
  }

  lemma ResuffixSub(stem: Str, suffix: Str, replacement: Str, q: Str)
    ensures RewriteString(Resuffix(suffix, replacement), q + (stem + suffix)) == q + (stem + replacement)
  {
    var src := q + (stem + suffix);
    assert src[|src| - |suffix|..] == suffix;
    assert src[..|src| - |suffix|] == q + stem;
    assert q + stem + replacement == q + (stem + replacement);
  }

  /** One stage is undone for the subdomains of its name exactly when it moves neither to nor from the root. */
  lemma StageUndoneBelowIff(st: Stage, p: Str)
    requires StageOk(st) && IsStem(p)
    ensures RewriteString(st.back, Sub(p, st.after)) == Sub(p, st.before) <==> (st.after == ROOT <==> st.before == ROOT)
  {
    if st.back == Remap(st.after, st.before) {
      if st.after == ROOT {
        RootHasNoSubdomain(p);
        assert RewriteString(st.back, Sub(p, st.after)) == p + ROOT;
        assert |Sub(p, st.before)| == if st.before == ROOT then |p| + 1 else |p| + 1 + |st.before|;
      } else {
        RemapSub(st.after, st.before, p);
        assert |p + [DOT] + st.before| == |p| + 1 + |st.before|;
      }
    } else {
      SuffixUndoneBelowIff(st, p);
    }
  }

  lemma RootHasNoSubdomain(p: Str)
    requires IsStem(p)
    ensures !HasSuffix(p + ROOT, [DOT] + ROOT) && p + ROOT != ROOT
  {
    var s := p + ROOT;
    assert s[|s| - 2..][0] == p[|p| - 1];
    assert ([DOT] + ROOT)[0] == DOT;
  }

  lemma SuffixUndoneBelowIff(st: Stage, p: Str)
    requires StageOk(st) && IsStem(p) && st.back.Resuffix?
    ensures RewriteString(st.back, Sub(p, st.after)) == Sub(p, st.before) <==> (st.after == ROOT <==> st.before == ROOT)
  {
    var suffix, replacement := st.back.suffix, st.back.replacement;
    var stem :| st.after == stem + suffix && st.before == stem + replacement;
    if st.after == ROOT {
      assert |suffix| == 1 && stem == [];
      assert suffix == ROOT && st.before == replacement;
      ResuffixSub([], suffix, replacement, p);
      assert [] + suffix == suffix && [] + replacement == replacement;
      assert |p + replacement| == |p| + |replacement|;
    } else {
      ResuffixSub(stem, suffix, replacement, p + [DOT]);
      assert |p + [DOT] + st.before| == |p| + 1 + |st.before|;
    }
  }

  // ----- all the stages -----

  lemma {:induction false} ChainUndone(stages: seq<Stage>, original: Str, final: Str)
    requires Chain(stages, original, final) && stages != []
    ensures Revert(stages, final) == ToLower(original)
    ensures final != [] ==> NeverEmpty(stages, final)
    decreases |stages|
  {
    var n := |stages| - 1;
    StageUndone(stages[n]);
    if n > 0 {
      ChainUndone(stages[..n], original, stages[n - 1].after);
    }
  }

  /** Behind a dot every stage is undone, to or from the root as well. */
  lemma StageUndoneBehindDot(st: Stage, p: Str)
    requires StageOk(st)
    ensures RewriteString(st.back, p + [DOT] + st.after) == p + [DOT] + st.before
  {
    if st.back == Remap(st.after, st.before) {
      RemapSub(st.after, st.before, p);
    } else {
      var stem :| st.after == stem + st.back.suffix && st.before == stem + st.back.replacement;
      ResuffixSub(stem, st.back.suffix, st.back.replacement, p + [DOT]);
    }
  }

  lemma {:induction false} ChainUndoneBehindDot(stages: seq<Stage>, original: Str, final: Str, p: Str)
    requires Chain(stages, original, final) && stages != []
    ensures Revert(stages, p + [DOT] + final) == p + [DOT] + ToLower(original)
    ensures NeverEmpty(stages, p + [DOT] + final)
    decreases |stages|
  {
    var n := |stages| - 1;
    StageUndoneBehindDot(stages[n], p);
    if n > 0 {
      ChainUndoneBehindDot(stages[..n], original, stages[n - 1].after, p);
    }
  }

  /** However many rules fire on the way, the subdomains of a final name come back if and only if the question was not the root. */
  lemma SubdomainsUndoneIff(stages: seq<Stage>, original: Str, final: Str, p: Str)
    requires Chain(stages, original, final) && stages != [] && final != ROOT
    ensures Revert(stages, Sub(p, final)) == Sub(p, ToLower(original)) <==> ToLower(original) != ROOT
    ensures NeverEmpty(stages, Sub(p, final))
  {
    ChainUndoneBehindDot(stages, original, final, p);
    assert |p + [DOT] + ToLower(original)| == |p| + 1 + |original|;
  }

  /** A record about the final name, or pointing at it, comes back as one about the original name. */
  ghost predicate Restores(rules: seq<ResponseRule>, x: Str, y: Str) {
    forall rr: Rec ::
      && (rr.name == x ==> Backwards(rules, rr).name == y)
      && (rr.value == x ==> Backwards(rules, rr).value == y)
  }

  lemma RevertRestores(stages: seq<Stage>, x: Str)
    requires NeverEmpty(stages, x)
    ensures Restores(ResponseRules(stages), x, Revert(stages, x))
  {
    forall rr: Rec ensures (rr.name == x ==> Backwards(ResponseRules(stages), rr).name == Revert(stages, x))
      && (rr.value == x ==> Backwards(ResponseRules(stages), rr).value == Revert(stages, x))
    {
      BackwardsReverts(stages, rr);
    }
  }

  lemma RestoresReverts(stages: seq<Stage>, x: Str, y: Str)
    requires Restores(ResponseRules(stages), x, y)
    ensures Revert(stages, x) == y
  {
    BackwardsReverts(stages, Rec(x, []));
  }

  lemma FireOffRoot(rule: Rule, name: Str)
    requires WellMade(rule) && OffRoot(rule) && Fire(rule, name).Some?
    ensures Fire(rule, name).value.after != ROOT
  {
    match rule
    case Exact(_, _, _) =>
    case Prefix(prefix, replacement, _) => assert (replacement + name[|prefix|..])[..|replacement|] == replacement;
    case Suffix(suffix, replacement, _) =>
      var stem := name[..|name| - |suffix|];
      assert (stem + replacement)[|stem|..] == replacement;
    case Substring(substring, replacement, _) =>
      ReplacedLength(name, substring, replacement);
      assert |replacement| == 1 ==> replacement == ROOT;
    case Regex(_, _, _) =>
  }

  lemma {:induction false} ReplacedLength(s: Str, part: Str, put: Str)
    requires part != [] && Contains(s, part)
    ensures |ReplaceAll(s, part, put)| >= |put|
    decreases |s|
  {
    if !HasPrefix(s, part) {
      ReplacedLength(s[1..], part, put);
    }
  }

  lemma {:induction false} FinalOffRoot(rules: seq<Rule>, name: Str, valid: Str -> bool)
    requires forall i :: 0 <= i < |rules| ==> WellMade(rules[i]) && OffRoot(rules[i])
    ensures match Rewritten(rules, name, valid) case Invalid => true case Handed(final, stages) => stages != [] ==> final != ROOT
    decreases |rules|
  {
    if rules != [] {
      var fired := Fire(rules[0], ToLower(name));
      if fired.None? {
        FinalOffRoot(rules[1..], name, valid);
      } else {
        FireOffRoot(rules[0], ToLower(name));
        FinalOffRoot(rules[1..], fired.value.after, valid);
        NothingFired(rules[1..], fired.value.after, valid);
      }
    }
  }

  lemma {:induction false} NothingFired(rules: seq<Rule>, name: Str, valid: Str -> bool)
    ensures match Rewritten(rules, name, valid) case Invalid => true case Handed(final, stages) => stages == [] ==> final == name
    decreases |rules|
  {
    if rules != [] && Fire(rules[0], ToLower(name)).None? {
      NothingFired(rules[1..], name, valid);
    }
  }

  /**
   * For any list of rules and any question, whichever of the rules fire: the reverter maps the name that was looked up back
   * to the lower-cased original name, in record names and in record values. It does the same for the subdomains of that
   * name, unless it is the root, if and only if the question was not the root.
   */
  lemma RulesAreUndone(rules: seq<Rule>, original: Str, valid: Str -> bool, final: Str, stages: seq<Stage>, p: Str)
    requires original != [] && !valid([]) && forall i :: 0 <= i < |rules| ==> WellMade(rules[i])
    requires Rewritten(rules, original, valid) == Handed(final, stages) && stages != []
    ensures Restores(ResponseRules(stages), final, ToLower(original))
    ensures final != ROOT ==>
      (Restores(ResponseRules(stages), Sub(p, final), Sub(p, ToLower(original))) <==> ToLower(original) != ROOT)
  {
    RewrittenChain(rules, original, valid);
    ChainUndone(stages, original, final);
    RevertRestores(stages, final);
    if final != ROOT {
      SubdomainsUndoneIff(stages, original, final, p);
      RevertRestores(stages, Sub(p, final));
      if Restores(ResponseRules(stages), Sub(p, final), Sub(p, ToLower(original))) {
        RestoresReverts(stages, Sub(p, final), Sub(p, ToLower(original)));
      }
    }
  }

  /** Under rules that never lead to the root, subdomains come back if and only if the question was not the root. */
  lemma OffRootRulesAreUndoneIff(rules: seq<Rule>, original: Str, valid: Str -> bool, final: Str, stages: seq<Stage>, p: Str)
    requires original != [] && !valid([]) && forall i :: 0 <= i < |rules| ==> WellMade(rules[i]) && OffRoot(rules[i])
    requires Rewritten(rules, original, valid) == Handed(final, stages) && stages != []
    ensures Restores(ResponseRules(stages), Sub(p, final), Sub(p, ToLower(original))) <==> ToLower(original) != ROOT
  {
    FinalOffRoot(rules, original, valid);
    RulesAreUndone(rules, original, valid, final, stages, p);
  }

  /** When one rule fires, as always under stop rules, subdomains come back exactly when it moves neither to nor from the root. */
  lemma OneStageUndoneIff(stages: seq<Stage>, original: Str, final: Str, p: Str)
    requires Chain(stages, original, final) && |stages| == 1 && IsStem(p)
    ensures Revert(stages, final) == ToLower(original)
    ensures Revert(stages, Sub(p, final)) == Sub(p, ToLower(original)) <==> (final == ROOT <==> ToLower(original) == ROOT)
  {
    StageUndone(stages[0]);
    StageUndoneBelowIff(stages[0], p);
    assert stages[..0] == [];
  }

  /** Rewriting the root leaves a subdomain of the new name with an empty label. */
  lemma RootIsNotUndoneBelow()
    ensures var st := Fire(Exact(ROOT, [120, DOT], true), ROOT); st.Some? && RewriteString(st.value.back, Sub([97], [120, DOT])) == [97, DOT, DOT]
    ensures Sub([97], ROOT) == [97, DOT]
  {
    RemapSub([120, DOT], ROOT, [97]);
  }
}
