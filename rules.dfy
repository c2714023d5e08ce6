/**
 * The filename phrase rules. The source writes the same if/elif chain twice:
 * once at the end of `categorize_file`, where the first rule that fires
 * overrides the scan stages, and once as `get_expected_category`, the oracle
 * the correctness score is measured against. Both are modelled as written,
 * together with the chain as a data table (a priority-ordered list of
 * required phrases and the label they select) and proofs that all three agree.
 */
module Rules {
  import opened Wrappers
  import opened Text
  import opened Taxonomy

  /** The override chain of `categorize_file`: the label of the first rule that fires, if any. */
  function Override(file: string): (r: Option<Label>) {
    var lf := ToLower(file);
    if Contains(lf, "linear") && Contains(lf, "guest") then Some(Label("Math", "Linear_Algebra"))
    else if Contains(lf, "network security") then Some(Label("Security", "Network_Security"))
    else if Contains(lf, "neural network") then Some(Label("AI", "Neural_Networks"))
    else if Contains(lf, "cryptography") then Some(Label("Security", "Cryptography"))
    else if Contains(lf, "machine learning") then Some(Label("AI", "Machine_Learning"))
    else if Contains(lf, "calculus") then Some(Label("Math", "Calculus"))
    else if Contains(lf, "nosql") && Contains(lf, "mongodb") then Some(Label("Database", "NoSQL"))
    else None
  }

  /**
   * `get_expected_category`: depends on the filename only, returns the label
   * of the first rule of the chain that fires, or the default when none does.
   */
  function ExpectedCategory(file: string): (r: Label)
    ensures Override(file).Some? ==> r == Override(file).value
    ensures Override(file).None? ==> r == Default
  {
    var lf := ToLower(file);
    if Contains(lf, "linear") && Contains(lf, "guest") then Label("Math", "Linear_Algebra")
    else if Contains(lf, "network security") then Label("Security", "Network_Security")
    else if Contains(lf, "neural network") then Label("AI", "Neural_Networks")
    else if Contains(lf, "cryptography") then Label("Security", "Cryptography")
    else if Contains(lf, "machine learning") then Label("AI", "Machine_Learning")
    else if Contains(lf, "calculus") then Label("Math", "Calculus")
    else if Contains(lf, "nosql") && Contains(lf, "mongodb") then Label("Database", "NoSQL")
    else Default
  }

  /** One rule: it fires when every required phrase occurs in the lower-cased filename. */
  datatype Rule = Rule(phrases: seq<string>, selects: Label)

  /** The chain as data, highest priority first. */
  const OverrideRules: seq<Rule> := [
    Rule(["linear", "guest"], Label("Math", "Linear_Algebra")),
    Rule(["network security"], Label("Security", "Network_Security")),
    Rule(["neural network"], Label("AI", "Neural_Networks")),
    Rule(["cryptography"], Label("Security", "Cryptography")),
    Rule(["machine learning"], Label("AI", "Machine_Learning")),
    Rule(["calculus"], Label("Math", "Calculus")),
    Rule(["nosql", "mongodb"], Label("Database", "NoSQL"))
  ]

  predicate ContainsAll(text: string, phrases: seq<string>) {
    phrases == [] || (Contains(text, phrases[0]) && ContainsAll(text, phrases[1..]))
  }

  predicate Fires(r: Rule, text: string) {
    ContainsAll(text, r.phrases)
  }

  /** The label of the first rule in `rules` that fires on `text`. */
  function FirstRule(rules: seq<Rule>, text: string): (r: Option<Label>) {
    if rules == [] then None
    else if Fires(rules[0], text) then Some(rules[0].selects)
    else FirstRule(rules[1..], text)
  }

  /** Rule `k` fires and no rule before it does. */
  ghost predicate FirstFiringAt(rules: seq<Rule>, text: string, k: int) {
    0 <= k < |rules| && Fires(rules[k], text) &&
    forall m :: 0 <= m < k ==> !Fires(rules[m], text)
  }

  /**
   * First-match semantics of the table: the result is the label of the
   * earliest rule that fires, and there is none exactly when no rule fires.
   */
  lemma {:induction false} FirstRuleIsEarliest(rules: seq<Rule>, text: string)
    ensures FirstRule(rules, text).Some? ==>
      exists k :: FirstFiringAt(rules, text, k) && rules[k].selects == FirstRule(rules, text).value
    ensures FirstRule(rules, text).None? <==> forall m :: 0 <= m < |rules| ==> !Fires(rules[m], text)
  {
    if rules != [] {
      FirstRuleIsEarliest(rules[1..], text);
      if Fires(rules[0], text) {
        assert FirstFiringAt(rules, text, 0);
      } else {
        if FirstRule(rules[1..], text).Some? {
          var k :| FirstFiringAt(rules[1..], text, k) && rules[1..][k].selects == FirstRule(rules[1..], text).value;
          assert FirstFiringAt(rules, text, k + 1);
        }
        assert forall m :: 1 <= m < |rules| ==> rules[m] == rules[1..][m - 1];
      }
    }
  }

  /** The hand-written chain is exactly the first firing rule of the table. */
  lemma OverrideIsFirstRule(file: string)
    ensures Override(file) == FirstRule(OverrideRules, ToLower(file))
  {
    var lf := ToLower(file);
    var rs := OverrideRules;
    assert FirstRule(rs[6..], lf) ==
      if Contains(lf, "nosql") && Contains(lf, "mongodb") then Some(Label("Database", "NoSQL")) else None
    by {
      assert rs[6..][1..] == [];
      FiresTwo(rs[6], lf);
    }
    FiresTwo(rs[0], lf);
    FiresOne(rs[1], lf);
    FiresOne(rs[2], lf);
    FiresOne(rs[3], lf);
    FiresOne(rs[4], lf);
    FiresOne(rs[5], lf);
    FirstRuleStep(rs, 5, lf);
    FirstRuleStep(rs, 4, lf);
    FirstRuleStep(rs, 3, lf);
    FirstRuleStep(rs, 2, lf);
    FirstRuleStep(rs, 1, lf);
    FirstRuleStep(rs, 0, lf);
    assert rs[0..] == rs;
  }

  lemma FiresOne(r: Rule, text: string)
    requires |r.phrases| == 1
    ensures Fires(r, text) <==> Contains(text, r.phrases[0])
  {
    assert ContainsAll(text, r.phrases[1..]) by { assert r.phrases[1..] == []; }
  }

  lemma FiresTwo(r: Rule, text: string)
    requires |r.phrases| == 2
    ensures Fires(r, text) <==> Contains(text, r.phrases[0]) && Contains(text, r.phrases[1])
  {
    var tail := r.phrases[1..];
    assert ContainsAll(text, tail[1..]) by { assert tail[1..] == []; }
    assert ContainsAll(text, tail) <==> Contains(text, r.phrases[1]);
  }

  /** One unfolding of the first-match scan at position `k` of a rule list. */
  lemma FirstRuleStep(rules: seq<Rule>, k: nat, text: string)
    requires k < |rules|
    ensures FirstRule(rules[k..], text) ==
      if Fires(rules[k], text) then Some(rules[k].selects) else FirstRule(rules[k + 1..], text)
  {
    assert rules[k..][1..] == rules[k + 1..];
  }

  /** Every label the chain can select is a taxonomy entry. */
  lemma OverrideAdmissible(file: string)
    ensures Override(file).Some? ==> InTable(Categories, Override(file).value)
  {
    if Override(file).Some? {
      var l := Override(file).value;
      if l == Label("Math", "Linear_Algebra") { assert EntryAt(Categories, 2, 0, l); }
      else if l == Label("Security", "Network_Security") { assert EntryAt(Categories, 4, 1, l); }
      else if l == Label("AI", "Neural_Networks") { assert EntryAt(Categories, 1, 1, l); }
      else if l == Label("Security", "Cryptography") { assert EntryAt(Categories, 4, 0, l); }
      else if l == Label("AI", "Machine_Learning") { assert EntryAt(Categories, 1, 0, l); }
      else if l == Label("Math", "Calculus") { assert EntryAt(Categories, 2, 1, l); }
      else { assert EntryAt(Categories, 3, 1, l); }
    }
  }
}
