/**
 * The static ReDoS gate that every externally supplied regular expression
 * passes before it is compiled (src/query/regex-validator.ts). Each rule is a
 * predicate over the pattern text, stated the way the validator's own
 * regular expressions match (anywhere in the pattern, leftmost first).
 */
module RegexValidation {
  import opened Wrappers
  import opened Strings

  // ---------------------------------------------------------------------------
  // Options
  // ---------------------------------------------------------------------------

  /** RegexValidationOptions: every field may be left out. */
  datatype RegexValidationOptions = RegexValidationOptions(
    maxLength: Option<int>,
    maxNestingDepth: Option<int>,
    allowBackreferences: Option<bool>,
    allowLookarounds: Option<bool>)

  /** The options after the defaults are filled in. */
  datatype ResolvedOptions = ResolvedOptions(
    maxLength: int,
    maxNestingDepth: int,
    allowBackreferences: bool,
    allowLookarounds: bool)

  const NoOptions := RegexValidationOptions(None, None, None, None)

  function OrElse<T>(o: Option<T>, default: T): T {
    if o.Some? then o.value else default
  }

  /** `options?.x ?? default` for every field (src/query/regex-validator.ts:50-55). */
  function Resolve(o: RegexValidationOptions): (r: ResolvedOptions)
    ensures o == NoOptions ==> r == ResolvedOptions(100, 3, false, false)
  {
    ResolvedOptions(
      OrElse(o.maxLength, 100),
      OrElse(o.maxNestingDepth, 3),
      OrElse(o.allowBackreferences, false),
      OrElse(o.allowLookarounds, false))
  }

  // ---------------------------------------------------------------------------
  // Shapes
  // ---------------------------------------------------------------------------

  /** `[+*?{]` */
  predicate IsQuantifier(c: char) {
    c == '+' || c == '*' || c == '?' || c == '{'
  }

  /** `\([^)]*\)` matched from index `i` to index `j`: `)` at `j` is the first one after `i`. */
  predicate GroupAt(p: string, i: int, j: int) {
    0 <= i < j < |p| && p[i] == '(' && p[j] == ')' &&
    forall k :: i < k < j ==> p[k] != ')'
  }

  /** `/\([^)]*[+*?{][^)]*\)[+*?{]/`: a quantified group whose body holds a quantifier. */
  predicate NestedQuantifierShape(p: string) {
    exists i, j :: 0 <= i < j < |p| - 1 && GroupAt(p, i, j) && IsQuantifier(p[j + 1]) &&
      exists k :: i < k < j && IsQuantifier(p[k])
  }

  /** `/\([^)]*\|[^)]*\)[F]/` for the set `F` of characters allowed after the group. */
  predicate AlternationGroup(p: string, follow: set<char>) {
    exists i, j :: 0 <= i < j < |p| - 1 && GroupAt(p, i, j) && p[j + 1] in follow &&
      exists k :: i < k < j && p[k] == '|'
  }

  /** hasNestedQuantifiers (src/query/regex-validator.ts:145-174). */
  predicate HasNestedQuantifiers(p: string) {
    || NestedQuantifierShape(p)
    || (AlternationGroup(p, {'+', '*', '?', '{'}) && AlternationGroup(p, {'*', '+'}))
  }

  /** `/\([^)]*\|\)/`: a group whose last alternative is empty. */
  predicate EmptyAlternativeIn(p: string) {
    exists i, j :: 0 <= i < j < |p| && GroupAt(p, i, j) && j >= i + 2 && p[j - 1] == '|'
  }

  /** The eight entries of the dangerous-pattern list, in the order they are tried. */
  datatype DangerRule =
    | PositiveLookahead
    | NegativeLookahead
    | PositiveLookbehind
    | NegativeLookbehind
    | EmptyGroup
    | EmptyAlternative
    | AdjacentAlternation
    | AdjacentQuantifiers
  {
    function Description(): string {
      match this
      case PositiveLookahead => "Positive lookahead - can be slow"
      case NegativeLookahead => "Negative lookahead - can be slow"
      case PositiveLookbehind => "Positive lookbehind - can be slow"
      case NegativeLookbehind => "Negative lookbehind - can be slow"
      case EmptyGroup => "Empty group"
      case EmptyAlternative => "Empty alternative in group - ambiguous"
      case AdjacentAlternation => "Adjacent alternation operators"
      case AdjacentQuantifiers => "Adjacent quantifiers"
    }

    /** `pattern.match(regex)` succeeds for this entry's regular expression. */
    predicate MatchesIn(p: string) {
      match this
      case PositiveLookahead => Contains(p, "(?=")
      case NegativeLookahead => Contains(p, "(?!")
      case PositiveLookbehind => Contains(p, "(?<=")
      case NegativeLookbehind => Contains(p, "(?<!")
      case EmptyGroup => Contains(p, "(?)")
      case EmptyAlternative => EmptyAlternativeIn(p)
      case AdjacentAlternation => Contains(p, "||")
      case AdjacentQuantifiers => Contains(p, "**") || Contains(p, "++") || Contains(p, "??")
    }
  }

  const DangerRules: seq<DangerRule> := [
    PositiveLookahead, NegativeLookahead, PositiveLookbehind, NegativeLookbehind,
    EmptyGroup, EmptyAlternative, AdjacentAlternation, AdjacentQuantifiers]

  /** The first rule of `rules` that matches `p`, if any. */
  function FirstMatching(rules: seq<DangerRule>, p: string): (r: Option<DangerRule>)
    ensures r.None? <==> forall k :: 0 <= k < |rules| ==> !rules[k].MatchesIn(p)
    ensures r.Some? ==> exists k :: 0 <= k < |rules| && rules[k] == r.value && r.value.MatchesIn(p) &&
                          forall k' :: 0 <= k' < k ==> !rules[k'].MatchesIn(p)
  {
    if rules == [] then None
    else if rules[0].MatchesIn(p) then Some(rules[0])
    else
      var r := FirstMatching(rules[1..], p);
      assert r.Some? ==> exists k :: 0 <= k < |rules[1..]| && rules[1..][k] == r.value && r.value.MatchesIn(p) &&
                          forall k' :: 0 <= k' < k ==> !rules[1..][k'].MatchesIn(p);
      r
  }

  /** What findDangerousPattern reports for `p`. */
  function FirstDanger(p: string): Option<DangerRule> {
    FirstMatching(DangerRules, p)
  }

  /** findDangerousPattern (src/query/regex-validator.ts:179-226): the first listed rule that matches. */
  method FindDangerousPattern(p: string) returns (r: Option<DangerRule>)
    ensures r == FirstDanger(p)
    ensures r.Some? ==> r.value.MatchesIn(p)
    ensures r.None? ==> forall rule :: rule in DangerRules ==> !rule.MatchesIn(p)
  {
    var i := 0;
    while i < |DangerRules|
      invariant 0 <= i <= |DangerRules|
      invariant forall k :: 0 <= k < i ==> !DangerRules[k].MatchesIn(p)
      invariant FirstMatching(DangerRules[i..], p) == FirstDanger(p)
    {
      if DangerRules[i].MatchesIn(p) {
        return Some(DangerRules[i]);
      }
      assert DangerRules[i..][1..] == DangerRules[i + 1..];
      i := i + 1;
    }
    return None;
  }

  // ---------------------------------------------------------------------------
  // Nesting depth
  // ---------------------------------------------------------------------------

  /**
   * The depth scan over the rest of the pattern, from the current depth,
   * maximum so far and escape flag.
   */
  function DepthScan(p: string, depth: nat, maxDepth: nat, escaped: bool): nat
    decreases |p|
  {
    if |p| == 0 then maxDepth
    else if p[0] == '\\' && !escaped then DepthScan(p[1..], depth, maxDepth, true)
    else if escaped then DepthScan(p[1..], depth, maxDepth, false)
    else if p[0] == '(' then
      DepthScan(p[1..], depth + 1, if depth + 1 > maxDepth then depth + 1 else maxDepth, false)
    else if p[0] == ')' then
      if depth == 0 then maxDepth else DepthScan(p[1..], depth - 1, maxDepth, false)
    else DepthScan(p[1..], depth, maxDepth, false)
  }

  /** What getMaxNestingDepth returns. */
  function MaxNestingDepth(p: string): nat {
    DepthScan(p, 0, 0, false)
  }

  /** getMaxNestingDepth (src/query/regex-validator.ts:231-264). */
  method GetMaxNestingDepth(p: string) returns (r: nat)
    ensures r == MaxNestingDepth(p)
  {
    var depth: nat := 0;
    var maxDepth: nat := 0;
    var escaped := false;
    var i := 0;
    while i < |p|
      invariant 0 <= i <= |p|
      invariant DepthScan(p[i..], depth, maxDepth, escaped) == MaxNestingDepth(p)
    {
      var c := p[i];
      assert p[i..][0] == c && p[i..][1..] == p[i + 1..];
      if c == '\\' && !escaped {
        escaped := true;
      } else if escaped {
        escaped := false;
      } else if c == '(' {
        depth := depth + 1;
        maxDepth := if depth > maxDepth then depth else maxDepth;
      } else if c == ')' {
        if depth == 0 {
          return maxDepth;
        }
        depth := depth - 1;
      }
      i := i + 1;
    }
    return maxDepth;
  }

  /** The number of occurrences of `c` in `s`. */
  function Count(s: string, c: char): nat {
    if |s| == 0 then 0 else (if s[0] == c then 1 else 0) + Count(s[1..], c)
  }

  /** The scan never lowers the maximum and raises it by at most one per `(`. */
  lemma {:induction false} DepthScanBounds(p: string, depth: nat, maxDepth: nat, escaped: bool)
    requires depth <= maxDepth
    ensures maxDepth <= DepthScan(p, depth, maxDepth, escaped) <= maxDepth + Count(p, '(')
    decreases |p|
  {
    if |p| > 0 {
      var m' := if depth + 1 > maxDepth then depth + 1 else maxDepth;
      if p[0] == '\\' && !escaped {
        DepthScanBounds(p[1..], depth, maxDepth, true);
      } else if escaped {
        DepthScanBounds(p[1..], depth, maxDepth, false);
      } else if p[0] == '(' {
        DepthScanBounds(p[1..], depth + 1, m', false);
      } else if p[0] == ')' {
        if depth > 0 {
          DepthScanBounds(p[1..], depth - 1, maxDepth, false);
        }
      } else {
        DepthScanBounds(p[1..], depth, maxDepth, false);
      }
    }
  }

  /** The depth never exceeds the number of `(` in the pattern. */
  lemma MaxNestingDepthBound(p: string)
    ensures MaxNestingDepth(p) <= Count(p, '(')
  {
    DepthScanBounds(p, 0, 0, false);
  }

  /** Text after the scanned part can only raise the depth, never lower it. */
  lemma {:induction false} DepthScanMonotone(p: string, q: string, depth: nat, maxDepth: nat, escaped: bool)
    requires depth <= maxDepth
    ensures DepthScan(p, depth, maxDepth, escaped) <= DepthScan(p + q, depth, maxDepth, escaped)
    decreases |p|
  {
    if |p| == 0 {
      assert p + q == q;
      DepthScanBounds(q, depth, maxDepth, escaped);
    } else {
      assert (p + q)[0] == p[0] && (p + q)[1..] == p[1..] + q;
      var m' := if depth + 1 > maxDepth then depth + 1 else maxDepth;
      if p[0] == '\\' && !escaped {
        DepthScanMonotone(p[1..], q, depth, maxDepth, true);
      } else if escaped {
        DepthScanMonotone(p[1..], q, depth, maxDepth, false);
      } else if p[0] == '(' {
        DepthScanMonotone(p[1..], q, depth + 1, m', false);
      } else if p[0] == ')' {
        if depth > 0 {
          DepthScanMonotone(p[1..], q, depth - 1, maxDepth, false);
        }
      } else {
        DepthScanMonotone(p[1..], q, depth, maxDepth, false);
      }
    }
  }

  /** A prefix of a pattern never reaches a greater depth than the whole pattern. */
  lemma MaxNestingDepthPrefix(p: string, q: string)
    ensures MaxNestingDepth(p) <= MaxNestingDepth(p + q)
  {
    DepthScanMonotone(p, q, 0, 0, false);
  }

  /** Where the depth scan stands after part of the pattern: still running, or stopped with its result. */
  datatype ScanState = Running(depth: nat, maxDepth: nat, escaped: bool) | Stopped(result: nat)

  /** The state of the depth scan after `p`, from the given state. */
  function DepthAfter(p: string, depth: nat, maxDepth: nat, escaped: bool): ScanState
    decreases |p|
  {
    if |p| == 0 then Running(depth, maxDepth, escaped)
    else if p[0] == '\\' && !escaped then DepthAfter(p[1..], depth, maxDepth, true)
    else if escaped then DepthAfter(p[1..], depth, maxDepth, false)
    else if p[0] == '(' then
      DepthAfter(p[1..], depth + 1, if depth + 1 > maxDepth then depth + 1 else maxDepth, false)
    else if p[0] == ')' then
      if depth == 0 then Stopped(maxDepth) else DepthAfter(p[1..], depth - 1, maxDepth, false)
    else DepthAfter(p[1..], depth, maxDepth, false)
  }

  /** What the scan returns from a state reached part-way through. */
  function Resume(s: ScanState, q: string): nat {
    match s
    case Running(depth, maxDepth, escaped) => DepthScan(q, depth, maxDepth, escaped)
    case Stopped(result) => result
  }

  /** Scanning `p + q` is scanning `p` and then carrying on with `q` from where `p` left off. */
  lemma {:induction false} DepthScanConcat(p: string, q: string, depth: nat, maxDepth: nat, escaped: bool)
    ensures DepthScan(p + q, depth, maxDepth, escaped) == Resume(DepthAfter(p, depth, maxDepth, escaped), q)
    decreases |p|
  {
    if |p| == 0 {
      assert p + q == q;
    } else {
      assert (p + q)[0] == p[0] && (p + q)[1..] == p[1..] + q;
      var m' := if depth + 1 > maxDepth then depth + 1 else maxDepth;
      if p[0] == '\\' && !escaped {
        DepthScanConcat(p[1..], q, depth, maxDepth, true);
      } else if escaped {
        DepthScanConcat(p[1..], q, depth, maxDepth, false);
      } else if p[0] == '(' {
        DepthScanConcat(p[1..], q, depth + 1, m', false);
      } else if p[0] == ')' {
        if depth > 0 {
          DepthScanConcat(p[1..], q, depth - 1, maxDepth, false);
        }
      } else {
        DepthScanConcat(p[1..], q, depth, maxDepth, false);
      }
    }
  }

  /** An escaped parenthesis leaves the depth and the maximum as they were, from any state. */
  lemma EscapedParenSkipped(c: char, q: string, depth: nat, maxDepth: nat)
    requires c == '(' || c == ')'
    ensures DepthScan(['\\', c] + q, depth, maxDepth, false) == DepthScan(q, depth, maxDepth, false)
  {
    var s := ['\\', c] + q;
    assert s[0] == '\\' && s[1..] == [c] + q && s[1..][1..] == q;
  }

  /** An escaped parenthesis anywhere outside an escape does not count. */
  lemma EscapedParenIgnored(p: string, c: char, q: string)
    requires c == '(' || c == ')'
    requires DepthAfter(p, 0, 0, false).Running? && !DepthAfter(p, 0, 0, false).escaped
    ensures MaxNestingDepth(p + (['\\', c] + q)) == MaxNestingDepth(p + q)
  {
    var st := DepthAfter(p, 0, 0, false);
    DepthScanConcat(p, ['\\', c] + q, 0, 0, false);
    DepthScanConcat(p, q, 0, 0, false);
    EscapedParenSkipped(c, q, st.depth, st.maxDepth);
  }

  /** A `)` met at depth 0 ends the scan with the maximum reached so far. */
  lemma UnmatchedCloseReturns(q: string, maxDepth: nat)
    ensures DepthScan([')'] + q, 0, maxDepth, false) == maxDepth
  {
    assert ([')'] + q)[0] == ')';
  }

  /**
   * Everything after the first `)` that closes nothing is ignored: the result
   * is the depth the text before it reached.
   */
  lemma UnmatchedCloseStops(p: string, q: string)
    requires DepthAfter(p, 0, 0, false).Running?
    requires DepthAfter(p, 0, 0, false).depth == 0 && !DepthAfter(p, 0, 0, false).escaped
    ensures MaxNestingDepth(p + ([')'] + q)) == MaxNestingDepth(p)
  {
    var st := DepthAfter(p, 0, 0, false);
    DepthScanConcat(p, [')'] + q, 0, 0, false);
    DepthScanConcat(p, [], 0, 0, false);
    assert p + [] == p;
    UnmatchedCloseReturns(q, st.maxDepth);
  }

  // ---------------------------------------------------------------------------
  // Backreferences, lookarounds, quick check
  // ---------------------------------------------------------------------------

  /** hasBackreferences: `/\\[1-9]/` (src/query/regex-validator.ts:269-273). */
  predicate HasBackreferences(p: string) {
    exists i :: 0 <= i < |p| - 1 && p[i] == '\\' && '1' <= p[i + 1] <= '9'
  }

  /** hasLookarounds: `/\(\?[=!]|\(\?<[=!]/` (src/query/regex-validator.ts:278-280). */
  predicate HasLookarounds(p: string) {
    Contains(p, "(?=") || Contains(p, "(?!") || Contains(p, "(?<=") || Contains(p, "(?<!")
  }

  /** isSafePattern (src/query/regex-validator.ts:285-294). */
  predicate IsSafePattern(p: string) {
    forall i :: 0 <= i < |p| ==> !(IsQuantifier(p[i]) || p[i] == '(')
  }

  // ---------------------------------------------------------------------------
  // validate
  // ---------------------------------------------------------------------------

  /** Why a pattern was refused; each carries the detail of the SecurityError it throws. */
  datatype Rejection =
    | TooLong(length: nat, maxLength: int)
    | NestedQuantifiers
    | Dangerous(rule: DangerRule)
    | TooDeep(depth: nat, maxDepth: int)
    | Backreferences
    | Lookarounds

  datatype Verdict = Accepted | Rejected(reason: Rejection)

  /** The checks of validate, in their order (src/query/regex-validator.ts:49-139). */
  function Validation(p: string, o: RegexValidationOptions): Verdict {
    var opts := Resolve(o);
    if |p| > opts.maxLength then Rejected(TooLong(|p|, opts.maxLength))
    else if |p| == 0 then Accepted
    else if HasNestedQuantifiers(p) then Rejected(NestedQuantifiers)
    else if FirstDanger(p).Some? then Rejected(Dangerous(FirstDanger(p).value))
    else if MaxNestingDepth(p) > opts.maxNestingDepth then
      Rejected(TooDeep(MaxNestingDepth(p), opts.maxNestingDepth))
    else if !opts.allowBackreferences && HasBackreferences(p) then Rejected(Backreferences)
    else if !opts.allowLookarounds && HasLookarounds(p) then Rejected(Lookarounds)
    else Accepted
  }

  /** RegexValidator.validate: returns normally or throws the SecurityError of the first failed check. */
  method Validate(p: string, o: RegexValidationOptions) returns (v: Verdict)
    ensures v == Validation(p, o)
  {
    var opts := Resolve(o);
    if |p| > opts.maxLength {
      return Rejected(TooLong(|p|, opts.maxLength));
    }
    if |p| == 0 {
      return Accepted;
    }
    if HasNestedQuantifiers(p) {
      return Rejected(NestedQuantifiers);
    }
    var danger := FindDangerousPattern(p);
    if danger.Some? {
      return Rejected(Dangerous(danger.value));
    }
    var depth := GetMaxNestingDepth(p);
    if depth > opts.maxNestingDepth {
      return Rejected(TooDeep(depth, opts.maxNestingDepth));
    }
    if !opts.allowBackreferences && HasBackreferences(p) {
      return Rejected(Backreferences);
    }
    if !opts.allowLookarounds && HasLookarounds(p) {
      return Rejected(Lookarounds);
    }
    return Accepted;
  }

  // ---------------------------------------------------------------------------
  // Properties of validate
  // ---------------------------------------------------------------------------

  /** An occurrence of a literal starts with the literal's first character. */
  lemma OccurrenceFirstChar(s: string, pat: string)
    requires |pat| >= 1
    ensures Contains(s, pat) ==> exists i :: 0 <= i < |s| && s[i] == pat[0]
  {
    if Contains(s, pat) {
      var i: nat :| i <= |s| && OccursAt(s, pat, i);
      assert s[i..i + |pat|][0] == s[i];
    }
  }

  /** An occurrence of a literal starts with the literal's first two characters. */
  lemma OccurrenceChars(s: string, pat: string)
    requires |pat| >= 2
    ensures Contains(s, pat) ==> exists i :: 0 <= i < |s| - 1 && s[i] == pat[0] && s[i + 1] == pat[1]
  {
    if Contains(s, pat) {
      var i: nat :| i <= |s| && OccursAt(s, pat, i);
      assert s[i..i + |pat|][0] == s[i] && s[i..i + |pat|][1] == s[i + 1];
    }
  }

  /** An occurrence of a literal starts with the literal's first three characters. */
  lemma OccurrenceThreeChars(s: string, pat: string)
    requires |pat| >= 3
    ensures Contains(s, pat) ==>
      exists i :: 0 <= i < |s| - 2 && s[i] == pat[0] && s[i + 1] == pat[1] && s[i + 2] == pat[2]
  {
    if Contains(s, pat) {
      var i: nat :| i <= |s| && OccursAt(s, pat, i);
      assert s[i..i + |pat|][0] == s[i] && s[i..i + |pat|][1] == s[i + 1] && s[i..i + |pat|][2] == s[i + 2];
    }
  }

  lemma {:induction false} NoCharCount(s: string, c: char)
    requires forall i :: 0 <= i < |s| ==> s[i] != c
    ensures Count(s, c) == 0
  {
    if |s| > 0 {
      NoCharCount(s[1..], c);
    }
  }

  /** A pattern without `(` has no group, no lookaround and depth 0. */
  lemma NoParenShapes(p: string)
    requires forall i :: 0 <= i < |p| ==> p[i] != '('
    ensures !HasNestedQuantifiers(p) && !EmptyAlternativeIn(p) && MaxNestingDepth(p) == 0
    ensures !HasLookarounds(p) && !Contains(p, "(?)")
  {
    forall pat: string | |pat| >= 1 && pat[0] == '(' ensures !Contains(p, pat) {
      OccurrenceFirstChar(p, pat);
    }
    NoCharCount(p, '(');
    MaxNestingDepthBound(p);
  }

  /** No two equal characters stand side by side, so no adjacent-operator rule fires. */
  lemma NoDoubledChars(p: string)
    requires forall i :: 0 <= i < |p| - 1 ==> p[i] != p[i + 1]
    ensures !Contains(p, "||") && !Contains(p, "**") && !Contains(p, "++") && !Contains(p, "??")
  {
    forall pat: string | |pat| == 2 && pat[0] == pat[1] ensures !Contains(p, pat) {
      OccurrenceChars(p, pat);
    }
  }

  /** A pattern longer than maxLength is refused before any other check. */
  lemma LengthCheckedFirst(p: string, o: RegexValidationOptions)
    requires |p| > Resolve(o).maxLength
    ensures Validation(p, o) == Rejected(TooLong(|p|, Resolve(o).maxLength))
  {
  }

  /** The empty pattern is accepted whenever the length limit admits it. */
  lemma EmptyPatternAccepted(o: RegexValidationOptions)
    requires Resolve(o).maxLength >= 0
    ensures Validation("", o) == Accepted
  {
  }

  /** The alternation rule reduces to its inner test: a `|` group followed by `*` or `+`. */
  lemma AlternationRule(p: string)
    ensures HasNestedQuantifiers(p) <==> NestedQuantifierShape(p) || AlternationGroup(p, {'*', '+'})
  {
    if AlternationGroup(p, {'*', '+'}) {
      var i, j :| 0 <= i < j < |p| - 1 && GroupAt(p, i, j) && p[j + 1] in {'*', '+'} &&
        exists k :: i < k < j && p[k] == '|';
      assert p[j + 1] in {'+', '*', '?', '{'};
    }
  }

  /** The nested-quantifier examples of the source are refused. */
  lemma NestedQuantifierExamples()
    ensures Validation("(a+)+", NoOptions) == Rejected(NestedQuantifiers)
    ensures Validation("(a*)+", NoOptions) == Rejected(NestedQuantifiers)
    ensures Validation("(a?)*", NoOptions) == Rejected(NestedQuantifiers)
    ensures Validation("(a{2,})+", NoOptions) == Rejected(NestedQuantifiers)
  {
    assert GroupAt("(a+)+", 0, 3) && IsQuantifier("(a+)+"[2]);
    assert GroupAt("(a*)+", 0, 3) && IsQuantifier("(a*)+"[2]);
    assert GroupAt("(a?)*", 0, 3) && IsQuantifier("(a?)*"[2]);
    assert GroupAt("(a{2,})+", 0, 6) && IsQuantifier("(a{2,})+"[2]);
  }

  /** A `|` group followed by `+` is refused; followed by `?` or `{` it passes. */
  lemma AlternationExamples()
    ensures Validation("(a|b)+", NoOptions) == Rejected(NestedQuantifiers)
    ensures Validation("(a|b)?", NoOptions) == Accepted
    ensures Validation("(a|b){2}", NoOptions) == Accepted
  {
    AlternationPlusRejected();
    OneGroupPasses("(a|b)?");
    OneGroupPasses("(a|b){2}");
  }

  lemma AlternationPlusRejected()
    ensures HasNestedQuantifiers("(a|b)+")
  {
    assert GroupAt("(a|b)+", 0, 4) && "(a|b)+"[2] == '|';
    assert AlternationGroup("(a|b)+", {'*', '+'});
  }

  /** The two quantified alternations pass every check of validate. */
  lemma OneGroupPasses(p: string)
    requires p == "(a|b)?" || p == "(a|b){2}"
    ensures Validation(p, NoOptions) == Accepted
  {
    OneGroupShape(p);
    OneGroupNoDanger(p);
    OneGroupDepth(p);
    assert !HasBackreferences(p) && !HasLookarounds(p);
  }

  lemma OneGroupShape(p: string)
    requires p == "(a|b)?" || p == "(a|b){2}"
    ensures !HasNestedQuantifiers(p)
  {
    forall i, j | 0 <= i < j < |p| && GroupAt(p, i, j) ensures i == 0 && j == 4 { }
  }

  lemma OneGroupNoDanger(p: string)
    requires p == "(a|b)?" || p == "(a|b){2}"
    ensures FirstDanger(p).None? && !HasLookarounds(p)
  {
    forall pat: string | |pat| >= 2 && pat[0] == '(' && pat[1] == '?' ensures !Contains(p, pat) {
      OccurrenceChars(p, pat);
    }
    NoDoubledChars(p);
    forall i, j | 0 <= i < j < |p| && GroupAt(p, i, j) ensures i == 0 && j == 4 { }
    assert !DangerRules[0].MatchesIn(p) && !DangerRules[1].MatchesIn(p);
    assert !DangerRules[2].MatchesIn(p) && !DangerRules[3].MatchesIn(p);
    assert !DangerRules[4].MatchesIn(p) && !DangerRules[5].MatchesIn(p);
    assert !DangerRules[6].MatchesIn(p) && !DangerRules[7].MatchesIn(p);
  }

  lemma OneGroupDepth(p: string)
    requires p == "(a|b)?" || p == "(a|b){2}"
    ensures MaxNestingDepth(p) <= 1
  {
    assert Count(p, '(') == 1 + Count(p[1..], '(');
    NoCharCount(p[1..], '(');
    MaxNestingDepthBound(p);
  }

  /** A plain anchored character-class pattern passes. */
  lemma CharacterClassAccepted()
    ensures Validation("^[a-z]+$", NoOptions) == Accepted
  {
    var p := "^[a-z]+$";
    NoParenShapes(p);
    NoDoubledChars(p);
    assert !DangerRules[5].MatchesIn(p);
  }

  /** Lookarounds are matched by the dangerous-pattern list. */
  lemma LookaroundIsDangerous(p: string)
    requires HasLookarounds(p)
    ensures FirstDanger(p).Some?
  {
    assert DangerRules[0] == PositiveLookahead && DangerRules[1] == NegativeLookahead;
    assert DangerRules[2] == PositiveLookbehind && DangerRules[3] == NegativeLookbehind;
  }

  /**
   * A pattern with a lookaround is refused whatever the options say: the
   * dangerous-pattern list catches it before allowLookarounds is read.
   */
  lemma LookaroundsAlwaysRejected(p: string, o: RegexValidationOptions)
    requires HasLookarounds(p)
    ensures Validation(p, o) != Accepted
  {
    LookaroundIsDangerous(p);
  }

  /** The lookaround check of validate is never the one that refuses a pattern. */
  lemma LookaroundCheckUnreachable(p: string, o: RegexValidationOptions)
    ensures Validation(p, o) != Rejected(Lookarounds)
  {
    if HasLookarounds(p) {
      LookaroundIsDangerous(p);
    }
  }

  /** allowLookarounds has no effect: a lookahead is refused even when it is set. */
  lemma AllowLookaroundsIgnored()
    ensures Validation("(?=a)", RegexValidationOptions(None, None, None, Some(true))) ==
            Rejected(Dangerous(PositiveLookahead))
  {
    var p := "(?=a)";
    assert OccursAt(p, "(?=", 0);
    forall i, j | 0 <= i < j < |p| && GroupAt(p, i, j) ensures i == 0 && j == 4 { }
  }

  /** Backreferences are refused by default and pass when allowed. */
  lemma BackreferenceExamples()
    ensures Validation("\\1", NoOptions) == Rejected(Backreferences)
    ensures Validation("\\1", RegexValidationOptions(None, None, Some(true), None)) == Accepted
  {
    var p := "\\1";
    assert HasBackreferences(p) by { assert p[0] == '\\' && p[1] == '1'; }
    SafePatternPasses(p);
  }

  /** A pattern without quantifiers or groups passes every check up to the backreference one. */
  lemma SafePatternPasses(p: string)
    requires IsSafePattern(p) && !Contains(p, "||")
    ensures !HasNestedQuantifiers(p) && FirstDanger(p).None? && MaxNestingDepth(p) == 0
    ensures !HasLookarounds(p)
  {
    NoParenShapes(p);
    forall pat: string | |pat| >= 1 && IsQuantifier(pat[0]) ensures !Contains(p, pat) {
      OccurrenceFirstChar(p, pat);
    }
  }

  /**
   * isSafePattern's quick answer agrees with validate on patterns within the
   * length limit, except for `||` and backreferences, which it does not see.
   */
  lemma SafePatternAccepted(p: string, o: RegexValidationOptions)
    requires IsSafePattern(p) && |p| <= Resolve(o).maxLength && Resolve(o).maxNestingDepth >= 0
    requires !Contains(p, "||")
    requires Resolve(o).allowBackreferences || !HasBackreferences(p)
    ensures Validation(p, o) == Accepted
  {
    SafePatternPasses(p);
  }

  /** isSafePattern alone does not imply acceptance. */
  lemma SafePatternNotSufficient()
    ensures IsSafePattern("a||b") && Validation("a||b", NoOptions) == Rejected(Dangerous(AdjacentAlternation))
  {
    var p := "a||b";
    assert OccursAt(p, "||", 1);
    NoParenShapes(p);
    assert !DangerRules[5].MatchesIn(p);
    assert DangerRules[6].MatchesIn(p);
  }

  // ---------------------------------------------------------------------------
  // The evidently intended behaviour of allowLookarounds
  // ---------------------------------------------------------------------------

  /** The dangerous-pattern list with the four lookaround entries dropped when they are allowed. */
  function DangerRulesFor(opts: ResolvedOptions): seq<DangerRule> {
    if opts.allowLookarounds then DangerRules[4..] else DangerRules
  }
  /** validate as its options document it: allowLookarounds lets lookarounds through. */
  function ValidationIntended(p: string, o: RegexValidationOptions): Verdict {
    var opts := Resolve(o);
    var danger := FirstMatching(DangerRulesFor(opts), p);
    if |p| > opts.maxLength then Rejected(TooLong(|p|, opts.maxLength))
    else if |p| == 0 then Accepted
    else if HasNestedQuantifiers(p) then Rejected(NestedQuantifiers)
    else if danger.Some? then Rejected(Dangerous(danger.value))
    else if MaxNestingDepth(p) > opts.maxNestingDepth then
      Rejected(TooDeep(MaxNestingDepth(p), opts.maxNestingDepth))
    else if !opts.allowBackreferences && HasBackreferences(p) then Rejected(Backreferences)
    else if !opts.allowLookarounds && HasLookarounds(p) then Rejected(Lookarounds)
    else Accepted
  }

  /** Without allowLookarounds the corrected validation is the validation as written. */
  lemma IntendedAgreesByDefault(p: string, o: RegexValidationOptions)
    requires !Resolve(o).allowLookarounds
    ensures ValidationIntended(p, o) == Validation(p, o)
  {
  }

  /** The four lookaround entries of the dangerous-pattern list. */
  predicate IsLookaroundRule(r: DangerRule) {
    r == PositiveLookahead || r == NegativeLookahead || r == PositiveLookbehind || r == NegativeLookbehind
  }

  /**
   * With allowLookarounds, the corrected validation never refuses a pattern
   * for a lookaround: neither through a lookaround entry of the
   * dangerous-pattern list nor through the lookaround check.
   */
  lemma IntendedHonoursAllowLookarounds(p: string, o: RegexValidationOptions)
    requires Resolve(o).allowLookarounds
    ensures ValidationIntended(p, o) != Rejected(Lookarounds)
    ensures var v := ValidationIntended(p, o);
            v.Rejected? && v.reason.Dangerous? ==> !IsLookaroundRule(v.reason.rule)
  {
    var rules := DangerRulesFor(Resolve(o));
    assert rules == [EmptyGroup, EmptyAlternative, AdjacentAlternation, AdjacentQuantifiers];
  }

  /** With allowLookarounds, the corrected validation accepts a plain lookahead. */
  lemma IntendedAcceptsLookahead()
    ensures ValidationIntended("(?=a)", RegexValidationOptions(None, None, None, Some(true))) == Accepted
  {
    var p := "(?=a)";
    forall i, j | 0 <= i < j < |p| && GroupAt(p, i, j) ensures i == 0 && j == 4 { }
    NoDoubledChars(p);
    OccurrenceThreeChars(p, "(?)");
    var rules := DangerRules[4..];
    assert rules == [EmptyGroup, EmptyAlternative, AdjacentAlternation, AdjacentQuantifiers];
    assert !rules[0].MatchesIn(p) && !rules[1].MatchesIn(p) && !rules[2].MatchesIn(p) && !rules[3].MatchesIn(p);
    assert Count(p, '(') == 1 + Count(p[1..], '(');
    NoCharCount(p[1..], '(');
    MaxNestingDepthBound(p);
  }

  /** Without allowLookarounds the corrected validation still refuses every lookaround. */
  lemma IntendedStillRefusesByDefault(p: string, o: RegexValidationOptions)
    requires HasLookarounds(p) && !Resolve(o).allowLookarounds
    ensures ValidationIntended(p, o) != Accepted
  {
    LookaroundsAlwaysRejected(p, o);
  }
}
