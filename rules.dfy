/**
 * The pick-up/drop-off rules of the settings file and `get_pickUpDropOff_info`, which picks
 * the description and the attendees of an event from them for a given week number.
 */
module PickUpDropOff {
  import opened Results

  /**
   * One rule of a weekday's list; each field is `None` when the rule's dictionary lacks
   * that key. `weeks` is `"all"`, `"even"` or `"odd"`; any other value is unsupported.
   */
  datatype Rule = Rule(weeks: Option<string>, info: Option<string>, attendees: Option<seq<string>>)

  /** `rule["info"]` raises KeyError: the selected rule has no `info`. */
  datatype RuleError = MissingInfo

  /** The description and the attendees of an event. */
  type Resolution = (string, seq<string>)

  /** Whether a `weeks` value selects the week with the given number. */
  predicate Selects(weeks: string, weekNumber: int) {
    || weeks == "all"
    || (weeks == "even" && weekNumber % 2 == 0)
    || (weeks == "odd" && weekNumber % 2 == 1)
  }

  /** Whether a rule applies to the week: it has a supported `weeks` that selects it. */
  predicate Applies(rule: Rule, weekNumber: int) {
    rule.weeks.Some? && Selects(rule.weeks.value, weekNumber)
  }

  /** The index of the first rule that applies to the week, if any. */
  function FirstApplying(rules: seq<Rule>, weekNumber: int): (r: Option<nat>)
    ensures r.Some? ==> r.value < |rules| && Applies(rules[r.value], weekNumber)
    ensures r.Some? ==> forall j :: 0 <= j < r.value ==> !Applies(rules[j], weekNumber)
    ensures r.None? ==> forall j :: 0 <= j < |rules| ==> !Applies(rules[j], weekNumber)
  {
    if rules == [] then None
    else if Applies(rules[0], weekNumber) then Some(0)
    else
      match FirstApplying(rules[1..], weekNumber)
      case None => None
      case Some(k) => Some(k + 1)
  }

  /** The attendees of the last rule that lists any, or none when no rule does. */
  function LastAttendees(rules: seq<Rule>): seq<string> {
    if rules == [] then []
    else if rules[|rules| - 1].attendees.Some? then rules[|rules| - 1].attendees.value
    else LastAttendees(rules[..|rules| - 1])
  }

  /**
   * What `get_pickUpDropOff_info` returns: the `info` of the first rule that applies (empty
   * when none does), and the attendees of the last rule up to that one (up to the end when
   * none applies) that lists any.
   */
  function Resolve(rules: seq<Rule>, weekNumber: int): Result<Resolution, RuleError> {
    match FirstApplying(rules, weekNumber)
    case None => Ok(("", LastAttendees(rules)))
    case Some(m) =>
      if rules[m].info.None? then Err(MissingInfo)
      else Ok((rules[m].info.value, LastAttendees(rules[..m + 1])))
  }

  /** `get_pickUpDropOff_info`: scans the rules in order and stops at the first one that applies. */
  method GetPickUpDropOffInfo(rules: seq<Rule>, weekNumber: int) returns (r: Result<Resolution, RuleError>)
    ensures r == Resolve(rules, weekNumber)
  {
    var info := "";
    var attendees: seq<string> := [];
    var i := 0;
    while i < |rules|
      invariant 0 <= i <= |rules|
      invariant attendees == LastAttendees(rules[..i])
      invariant forall j :: 0 <= j < i ==> !Applies(rules[j], weekNumber)
    {
      var rule := rules[i];
      assert rules[..i + 1][..i] == rules[..i];
      if rule.attendees.Some? {
        attendees := rule.attendees.value;
      }
      if rule.weeks.None? {
        i := i + 1;
        continue;
      }
      var weeks := rule.weeks.value;
      if weeks == "all" {
        if rule.info.None? { return Err(MissingInfo); }
        info := rule.info.value;
        break;
      } else if weeks == "even" {
        if weekNumber % 2 == 0 {
          if rule.info.None? { return Err(MissingInfo); }
          info := rule.info.value;
          break;
        }
      } else if weeks == "odd" {
        if weekNumber % 2 == 1 {
          if rule.info.None? { return Err(MissingInfo); }
          info := rule.info.value;
          break;
        }
      } else {
        i := i + 1;
        continue;
      }
      i := i + 1;
    }
    assert i == |rules| ==> rules[..i] == rules;
    return Ok((info, attendees));
  }

  // ---------------------------------------------------------------------------------------
  // Properties

  /**
   * The attendees are those of some rule that lists attendees, and of no earlier one than
   * the last such rule; they are empty only when no rule lists any or the last one lists none.
   */
  lemma {:induction false} LastAttendeesIsLast(rules: seq<Rule>)
    ensures (forall j :: 0 <= j < |rules| ==> rules[j].attendees.None?) ==> LastAttendees(rules) == []
    ensures forall k :: 0 <= k < |rules| && rules[k].attendees.Some? &&
                        (forall j :: k < j < |rules| ==> rules[j].attendees.None?) ==>
                          LastAttendees(rules) == rules[k].attendees.value
    decreases |rules|
  {
    if rules != [] {
      var init := rules[..|rules| - 1];
      LastAttendeesIsLast(init);
      assert forall j :: 0 <= j < |init| ==> init[j] == rules[j];
    }
  }

  /** An `all` rule with an `info` decides every week: the rules after it are never read. */
  lemma AllShadowsLaterRules(pre: seq<Rule>, rule: Rule, post: seq<Rule>, weekNumber: int)
    requires rule.weeks == Some("all") && rule.info.Some?
    ensures Resolve(pre + [rule] + post, weekNumber) == Resolve(pre + [rule], weekNumber)
  {
    var a := pre + [rule] + post;
    var b := pre + [rule];
    assert a[..|b|] == b;
    match FirstApplying(b, weekNumber)
    case Some(m) =>
      assert a[..m + 1] == b[..m + 1];
      assert FirstApplying(a, weekNumber) == Some(m) by {
        FirstApplyingUnique(a, weekNumber, m);
      }
    case None =>
      assert Applies(b[|pre|], weekNumber);
  }

  /** The first applying rule is determined by where the applying rules are. */
  lemma FirstApplyingUnique(rules: seq<Rule>, weekNumber: int, m: nat)
    requires m < |rules| && Applies(rules[m], weekNumber)
    requires forall j :: 0 <= j < m ==> !Applies(rules[j], weekNumber)
    ensures FirstApplying(rules, weekNumber) == Some(m)
  {
  }

  /** An `even` rule and an `odd` rule together cover every week, each its own half. */
  lemma EvenOddAlternate(even: Rule, odd: Rule, weekNumber: int)
    requires even.weeks == Some("even") && even.info.Some?
    requires odd.weeks == Some("odd") && odd.info.Some?
    ensures Resolve([even, odd], weekNumber).Ok?
    ensures Resolve([even, odd], weekNumber).value.0 ==
              if weekNumber % 2 == 0 then even.info.value else odd.info.value
  {
    if weekNumber % 2 == 0 {
      FirstApplyingUnique([even, odd], weekNumber, 0);
    } else {
      FirstApplyingUnique([even, odd], weekNumber, 1);
    }
  }

  /** Inserting a rule that does not apply shifts the first applying rule behind it by one. */
  lemma FirstApplyingSkip(pre: seq<Rule>, rule: Rule, post: seq<Rule>, weekNumber: int)
    requires !Applies(rule, weekNumber)
    ensures FirstApplying(pre + [rule] + post, weekNumber) ==
              match FirstApplying(pre + post, weekNumber)
              case None => None
              case Some(m) => Some(if m < |pre| then m else m + 1)
  {
    var a := pre + [rule] + post;
    var b := pre + post;
    match FirstApplying(b, weekNumber)
    case None =>
      forall j | 0 <= j < |a|
        ensures !Applies(a[j], weekNumber)
      {
        if j < |pre| { assert a[j] == b[j]; }
        else if j > |pre| { assert a[j] == b[j - 1]; }
      }
    case Some(m) =>
      var m' := if m < |pre| then m else m + 1;
      assert a[m'] == b[m];
      forall j | 0 <= j < m'
        ensures !Applies(a[j], weekNumber)
      {
        if j < |pre| { assert a[j] == b[j]; }
        else if j > |pre| { assert a[j] == b[j - 1]; }
      }
      FirstApplyingUnique(a, weekNumber, m');
  }

  /**
   * A rule with neither a supported `weeks` nor attendees changes nothing: the scan skips it.
   */
  lemma UnsupportedRuleIgnored(pre: seq<Rule>, rule: Rule, post: seq<Rule>, weekNumber: int)
    requires rule.attendees.None?
    requires rule.weeks.None? || rule.weeks.value !in {"all", "even", "odd"}
    ensures Resolve(pre + [rule] + post, weekNumber) == Resolve(pre + post, weekNumber)
  {
    var a := pre + [rule] + post;
    var b := pre + post;
    FirstApplyingSkip(pre, rule, post, weekNumber);
    match FirstApplying(b, weekNumber)
    case None =>
      LastAttendeesSkip(pre, rule, post);
    case Some(m) =>
      if m < |pre| {
        assert a[..m + 1] == b[..m + 1];
      } else {
        var mid := b[..m + 1][|pre|..];
        assert a[..m + 2] == pre + [rule] + mid;
        assert b[..m + 1] == pre + mid;
        LastAttendeesSkip(pre, rule, mid);
      }
  }

  /** Removing a rule without attendees does not change the attendees found. */
  lemma {:induction false} LastAttendeesSkip(pre: seq<Rule>, rule: Rule, post: seq<Rule>)
    requires rule.attendees.None?
    ensures LastAttendees(pre + [rule] + post) == LastAttendees(pre + post)
    decreases |post|
  {
    if post == [] {
      assert pre + [rule] + post == pre + [rule];
      assert (pre + [rule])[..|pre|] == pre;
      assert pre + post == pre;
    } else {
      var a := pre + [rule] + post;
      var b := pre + post;
      var p := post[..|post| - 1];
      assert a[..|a| - 1] == pre + [rule] + p;
      assert b[..|b| - 1] == pre + p;
      LastAttendeesSkip(pre, rule, p);
    }
  }
}
