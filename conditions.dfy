/** The editing of a task's conditions in the template editor: a list of
    conditions, each with a list of rules that compare a template field
    against a value. Every handler produces the new list that is handed to
    `onEdit`; `None` stands for a handler that returns without calling it. */
module Conditions {
  import opened Common

  /** The comparison operators; only the two value-less ones are told apart.
      `Other` stands for each remaining operator and never for exist or
      not-exist, so two operators are equal exactly when the editor's
      `===` says so. */
  datatype Operator = Exist | NotExist | Other(name: string)

  /** Operators whose rules carry no value. */
  const OperatorsWithoutValue: seq<Operator> := [Exist, NotExist]

  /** A rule of a condition. `value` and `logicOperation` are kept as opaque
      text; the api names are assigned by the rule-naming helper. */
  datatype Rule = Rule(
    field: Option<string>,
    fieldType: Option<string>,
    operator: Option<Operator>,
    value: Option<string>,
    logicOperation: Option<string>,
    ruleApiName: Option<string>,
    predicateApiName: Option<string>)

  datatype Condition = Condition(apiName: string, action: Option<string>, rules: seq<Rule>)

  /** A template field the rules can refer to. */
  datatype Variable = Variable(apiName: string, fieldType: string)

  /** One key of a `Partial<…>` object: absent, or present with a value
      (a present key whose value is `undefined` is `Put(None)`). */
  datatype Patch<T> = Keep | Put(v: T)

  function Apply<T>(p: Patch<T>, current: T): T {
    match p
    case Keep => current
    case Put(v) => v
  }

  /** Patch `q` laid over patch `p`: what `q` sets wins, the rest is `p`'s. */
  function Then<T>(p: Patch<T>, q: Patch<T>): Patch<T> {
    if q.Put? then q else p
  }

  datatype RulePatch = RulePatch(
    field: Patch<Option<string>>,
    fieldType: Patch<Option<string>>,
    operator: Patch<Option<Operator>>,
    value: Patch<Option<string>>,
    logicOperation: Patch<Option<string>>)

  datatype ConditionPatch = ConditionPatch(
    apiName: Patch<string>,
    action: Patch<Option<string>>,
    rules: Patch<seq<Rule>>)

  /** The shallow merge `{ ...rule, ...patch }`. */
  function MergeRule(rule: Rule, p: RulePatch): Rule {
    rule.(field := Apply(p.field, rule.field),
          fieldType := Apply(p.fieldType, rule.fieldType),
          operator := Apply(p.operator, rule.operator),
          value := Apply(p.value, rule.value),
          logicOperation := Apply(p.logicOperation, rule.logicOperation))
  }

  /** The shallow merge `{ ...condition, ...patch }`. */
  function MergeCondition(c: Condition, p: ConditionPatch): Condition {
    Condition(Apply(p.apiName, c.apiName), Apply(p.action, c.action), Apply(p.rules, c.rules))
  }

  function ThenRule(p: RulePatch, q: RulePatch): RulePatch {
    RulePatch(Then(p.field, q.field), Then(p.fieldType, q.fieldType), Then(p.operator, q.operator),
              Then(p.value, q.value), Then(p.logicOperation, q.logicOperation))
  }

  /** Merging an empty patch changes nothing, merging the same patch twice is
      merging it once, and two merges in a row are one merge of the combined
      patch. */
  lemma MergeRuleLaws(rule: Rule, p: RulePatch, q: RulePatch)
    ensures MergeRule(rule, RulePatch(Keep, Keep, Keep, Keep, Keep)) == rule
    ensures MergeRule(MergeRule(rule, p), p) == MergeRule(rule, p)
    ensures MergeRule(MergeRule(rule, p), q) == MergeRule(rule, ThenRule(p, q))
  {
  }

  // ---------------------------------------------------------------------
  // Pruning the rules of deleted fields

  function ApiNames(vars: seq<Variable>): (names: seq<string>)
    ensures |names| == |vars|
    ensures forall i :: 0 <= i < |vars| ==> names[i] == vars[i].apiName
  {
    seq(|vars|, i requires 0 <= i < |vars| => vars[i].apiName)
  }

  /** The api names of the previous variables that no current variable has,
      in the order of the previous variables. */
  function DeletedFields(prev: seq<Variable>, vars: seq<Variable>): (deleted: seq<string>)
    ensures forall x :: x in deleted <==> x in ApiNames(prev) && x !in ApiNames(vars)
  {
    if |prev| == 0 then []
    else
      var rest := DeletedFields(prev[1..], vars);
      assert ApiNames(prev) == [prev[0].apiName] + ApiNames(prev[1..]);
      (if prev[0].apiName in ApiNames(vars) then [] else [prev[0].apiName]) + rest
  }

  /** A rule survives unless it names a field (`!rule.field` is false for a
      missing or empty name) that was deleted. */
  predicate Survives(rule: Rule, deleted: seq<string>) {
    rule.field.None? || rule.field.value == "" || rule.field.value !in deleted
  }

  function PruneRules(rules: seq<Rule>, deleted: seq<string>): seq<Rule> {
    Filter(rules, (r: Rule) => Survives(r, deleted))
  }

  /** The effect run when the template's variables change: when a variable
      known before is gone, every condition loses the rules on that field;
      otherwise (or on the first render, with no previous variables) `onEdit`
      is not called. */
  function OnVariablesChanged(prev: Option<seq<Variable>>, vars: seq<Variable>, conds: seq<Condition>)
    : (r: Option<seq<Condition>>)
    ensures r.None? <==> prev.None? || forall x :: x in ApiNames(prev.value) ==> x in ApiNames(vars)
    ensures r.Some? ==> |r.value| == |conds|
    ensures r.Some? ==> forall i :: 0 <= i < |conds| ==>
              r.value[i] == conds[i].(rules := PruneRules(conds[i].rules, DeletedFields(prev.value, vars)))
  {
    if prev.None? then None
    else
      var deleted := DeletedFields(prev.value, vars);
      if |deleted| == 0 then
        None
      else
        assert deleted[0] in deleted;
        Some(seq(|conds|, i requires 0 <= i < |conds| =>
          conds[i].(rules := PruneRules(conds[i].rules, deleted))))
  }

  /** Of the rules on a field known before the change, a rule is kept exactly
      when its field is still some variable's api name; rules without a field
      are always kept. */
  lemma PruneKeepsLiveFields(prev: seq<Variable>, vars: seq<Variable>, rule: Rule)
    ensures rule.field.None? ==> Survives(rule, DeletedFields(prev, vars))
    ensures rule.field.Some? && rule.field.value != "" && rule.field.value in ApiNames(prev) ==>
              (Survives(rule, DeletedFields(prev, vars)) <==> rule.field.value in ApiNames(vars))
  {
  }

  /** Pruning keeps exactly the surviving rules and keeps their order: the
      pruned rules of a split list are the pruned halves, one after the other. */
  lemma PruneRulesKeepsOrder(a: seq<Rule>, b: seq<Rule>, deleted: seq<string>)
    ensures PruneRules(a + b, deleted) == PruneRules(a, deleted) + PruneRules(b, deleted)
    ensures forall r :: r in PruneRules(a, deleted) <==> r in a && Survives(r, deleted)
  {
    FilterConcat(a, b, (r: Rule) => Survives(r, deleted));
    var kept := PruneRules(a, deleted);
    forall r | r in kept ensures r in a && Survives(r, deleted) {
      var i :| 0 <= i < |kept| && kept[i] == r;
    }
    forall r | r in a && Survives(r, deleted) ensures r in kept {
      var i :| 0 <= i < |a| && a[i] == r;
    }
  }

  // ---------------------------------------------------------------------
  // Adding, changing and removing rules

  /** Conditions are editable on a paid subscription or on the free plan. */
  function AccessConditions(isSubscribed: bool, isFreePlan: bool): bool {
    isSubscribed || isFreePlan
  }

  /** "Add a rule": with no conditions, the empty conditions for the current
      access; otherwise the first condition alone, its rules extended by an
      empty rule and renamed. Conditions after the first are dropped. */
  function AddNewRule(conds: seq<Condition>, isSubscribed: bool, isFreePlan: bool,
                      emptyConditions: bool -> seq<Condition>,
                      emptyRule: Rule, nameRules: seq<Rule> -> seq<Rule>): (r: seq<Condition>)
    ensures |conds| == 0 ==> r == emptyConditions(isSubscribed || isFreePlan)
    ensures |conds| > 0 ==> |r| == 1 && r[0].apiName == conds[0].apiName && r[0].action == conds[0].action
    ensures |conds| > 0 ==> r[0].rules == nameRules(conds[0].rules + [emptyRule])
  {
    if |conds| == 0 then emptyConditions(AccessConditions(isSubscribed, isFreePlan))
    else [conds[0].(rules := nameRules(conds[0].rules + [emptyRule]))]
  }

  /** Removes the element at `index`, as `filter((item, i) => i !== index)`. */
  function RemoveAt<T>(s: seq<T>, index: int): (r: seq<T>)
    ensures 0 <= index < |s| ==> |r| == |s| - 1 && r[..index] == s[..index] && r[index..] == s[index + 1..]
    ensures !(0 <= index < |s|) ==> r == s
  {
    if |s| == 0 then []
    else
      var rest := RemoveAt(s[1..], index - 1);
      assert 0 < index < |s| ==> rest[..index - 1] == s[1..index] && rest[index - 1..] == s[index + 1..];
      (if index == 0 then [] else [s[0]]) + rest
  }

  /** The condition handler: condition `index` becomes its merge with the
      patch; the list keeps its length and every other condition. */
  method ChangeCondition(conds: seq<Condition>, index: nat, p: ConditionPatch) returns (next: seq<Condition>)
    requires index < |conds|
    ensures |next| == |conds|
    ensures next[index] == MergeCondition(conds[index], p)
    ensures forall i :: 0 <= i < |conds| && i != index ==> next[i] == conds[i]
  {
    var draft := conds;
    draft := draft[index := MergeCondition(draft[index], p)];
    next := draft;
  }

  /** The rule handler: rule `ruleIndex` of condition `index` becomes its
      merge with the patch, then that condition's rules are renamed; all
      other conditions, and the condition's own fields, are unchanged. */
  method ChangeRule(conds: seq<Condition>, index: nat, ruleIndex: nat, p: RulePatch,
                    nameRules: seq<Rule> -> seq<Rule>) returns (next: seq<Condition>)
    requires index < |conds| && ruleIndex < |conds[index].rules|
    ensures |next| == |conds|
    ensures next[index].apiName == conds[index].apiName && next[index].action == conds[index].action
    ensures next[index].rules ==
              nameRules(conds[index].rules[ruleIndex := MergeRule(conds[index].rules[ruleIndex], p)])
    ensures forall i :: 0 <= i < |conds| && i != index ==> next[i] == conds[i]
  {
    var draft := conds;
    var rule := draft[index].rules[ruleIndex];
    draft := draft[index := draft[index].(rules := draft[index].rules[ruleIndex := MergeRule(rule, p)])];
    draft := draft[index := draft[index].(rules := nameRules(draft[index].rules))];
    next := draft;
  }

  /** The remove handler: condition `index` loses exactly rule `ruleIndex`,
      the remaining rules keep their order, and every other condition is
      unchanged. */
  method RemoveRule(conds: seq<Condition>, index: nat, ruleIndex: int) returns (next: seq<Condition>)
    requires index < |conds|
    ensures |next| == |conds|
    ensures next[index].apiName == conds[index].apiName && next[index].action == conds[index].action
    ensures 0 <= ruleIndex < |conds[index].rules| ==>
              next[index].rules == conds[index].rules[..ruleIndex] + conds[index].rules[ruleIndex + 1..]
    ensures !(0 <= ruleIndex < |conds[index].rules|) ==> next[index] == conds[index]
    ensures forall i :: 0 <= i < |conds| && i != index ==> next[i] == conds[i]
  {
    var draft := conds;
    var newRules := RemoveAt(draft[index].rules, ruleIndex);
    if 0 <= ruleIndex < |draft[index].rules| {
      assert newRules == newRules[..ruleIndex] + newRules[ruleIndex..];
    }
    draft := draft[index := draft[index].(rules := newRules)];
    next := draft;
  }

  // ---------------------------------------------------------------------
  // The field and operator dropdowns of a rule

  /** Choosing a field: nothing when it is the rule's field already;
      otherwise the field and its type are set and the operator and the
      value are cleared. */
  function ChooseField(rule: Rule, option: Variable): (p: Option<RulePatch>)
    ensures p.None? <==> rule.field == Some(option.apiName)
    ensures p.Some? ==>
              var r := MergeRule(rule, p.value);
              r.field == Some(option.apiName) && r.fieldType == Some(option.fieldType) &&
              r.operator.None? && r.value.None? && r.logicOperation == rule.logicOperation
  {
    if rule.field == Some(option.apiName) then None
    else Some(RulePatch(Put(Some(option.apiName)), Put(Some(option.fieldType)), Put(None), Put(None), Keep))
  }

  /** Choosing an operator: nothing when it is the rule's operator already;
      otherwise the operator is set, and the value is cleared exactly when the
      new operator takes no value. */
  function ChooseOperator(rule: Rule, op: Operator): (p: Option<RulePatch>)
    ensures p.None? <==> rule.operator == Some(op)
    ensures p.Some? ==>
              var r := MergeRule(rule, p.value);
              r.operator == Some(op) && r.field == rule.field && r.fieldType == rule.fieldType &&
              r.value == (if op == Exist || op == NotExist then None else rule.value)
  {
    if rule.operator == Some(op) then None
    else
      var clearValue := op in OperatorsWithoutValue;
      Some(RulePatch(Keep, Keep, Put(Some(op)), if clearValue then Put(None) else Keep, Keep))
  }

  /** The field dropdown of rule `ruleIndex` in condition `index`. */
  method OnFieldChange(conds: seq<Condition>, index: nat, ruleIndex: nat, option: Variable,
                       nameRules: seq<Rule> -> seq<Rule>) returns (next: Option<seq<Condition>>)
    requires index < |conds| && ruleIndex < |conds[index].rules|
    ensures next.None? <==> conds[index].rules[ruleIndex].field == Some(option.apiName)
    ensures next.Some? ==> |next.value| == |conds|
    ensures next.Some? ==> forall i :: 0 <= i < |conds| && i != index ==> next.value[i] == conds[i]
    ensures next.Some? ==>
              next.value[index].apiName == conds[index].apiName && next.value[index].action == conds[index].action
    ensures next.Some? ==>
              var rule := conds[index].rules[ruleIndex];
              next.value[index].rules ==
                nameRules(conds[index].rules[ruleIndex := rule.(field := Some(option.apiName),
                                                                fieldType := Some(option.fieldType),
                                                                operator := None, value := None)])
  {
    var p := ChooseField(conds[index].rules[ruleIndex], option);
    if p.None? {
      return None;
    }
    var changed := ChangeRule(conds, index, ruleIndex, p.value, nameRules);
    next := Some(changed);
  }

  /** The operator dropdown of rule `ruleIndex` in condition `index`. */
  method OnOperatorChange(conds: seq<Condition>, index: nat, ruleIndex: nat, op: Operator,
                          nameRules: seq<Rule> -> seq<Rule>) returns (next: Option<seq<Condition>>)
    requires index < |conds| && ruleIndex < |conds[index].rules|
    ensures next.None? <==> conds[index].rules[ruleIndex].operator == Some(op)
    ensures next.Some? ==> |next.value| == |conds|
    ensures next.Some? ==> forall i :: 0 <= i < |conds| && i != index ==> next.value[i] == conds[i]
    ensures next.Some? ==>
              next.value[index].apiName == conds[index].apiName && next.value[index].action == conds[index].action
    ensures next.Some? ==>
              var rule := conds[index].rules[ruleIndex];
              next.value[index].rules ==
                nameRules(conds[index].rules[ruleIndex := rule.(
                  operator := Some(op),
                  value := if op in OperatorsWithoutValue then None else rule.value)])
  {
    var p := ChooseOperator(conds[index].rules[ruleIndex], op);
    if p.None? {
      return None;
    }
    var changed := ChangeRule(conds, index, ruleIndex, p.value, nameRules);
    next := Some(changed);
  }
}
