/**
 What normalisation accepts, what it makes of it and what it complains about, said of the
 configuration as it was given: as conditions on the lists, not as the order of the checks.
 */
module NormalForm {
  import opened Wrappers
  import opened Text
  import opened ServerIds
  import opened ConfigNormalize
  import Decimal

  predicate HasBlank(s: string) {
    exists k :: 0 <= k < |s| && IsWhitespace(s[k])
  }

  // ------------------------------------------------------------------ categories

  /** The server a category is bound to: the one it names, or the first when it names none. */
  predicate BoundTo(c: Category, servers: seq<Server>, id: string) {
    if Trim(c.serverId) == "" then servers != [] && id == Trim(servers[0].id) else id == Trim(c.serverId)
  }

  ghost predicate ServerExists(c: Category, servers: seq<Server>) {
    exists k :: 0 <= k < |servers| && Trim(servers[k].id) != "" && BoundTo(c, servers, Trim(servers[k].id))
  }

  /** Nothing is missing, and the wanted tag is one word. */
  ghost predicate FieldsOk(c: Category) {
    && Trim(c.name) != "" && Trim(c.wantedTag) != "" && !HasBlank(Trim(c.wantedTag))
    && Trim(c.qbCategory) != "" && Trim(c.saveDirName) != "" && Trim(c.downloadDir) != "" && Trim(c.linkTargetDir) != ""
  }

  ghost predicate CategoryOk(c: Category, servers: seq<Server>) {
    FieldsOk(c) && ServerExists(c, servers)
  }

  ghost predicate CategoriesOk(categories: seq<Category>, servers: seq<Server>) {
    && (forall i :: 0 <= i < |categories| ==> CategoryOk(categories[i], servers))
    && (forall i, j :: 0 <= i < j < |categories| ==> Trim(categories[i].name) != Trim(categories[j].name))
    && (forall i, j :: 0 <= i < j < |categories| ==> Trim(categories[i].wantedTag) != Trim(categories[j].wantedTag))
  }

  /** The given category, trimmed, with the server it is bound to. */
  predicate CategoryBecomes(given: Category, servers: seq<Server>, c: Category) {
    && c.name == Trim(given.name) && c.wantedTag == Trim(given.wantedTag) && BoundTo(given, servers, c.serverId)
    && c.qbCategory == Trim(given.qbCategory) && c.saveDirName == Trim(given.saveDirName)
    && c.downloadDir == Trim(given.downloadDir) && c.linkTargetDir == Trim(given.linkTargetDir)
  }

  predicate CategoriesBecome(given: seq<Category>, servers: seq<Server>, out: seq<Category>) {
    |out| == |given| && forall i :: 0 <= i < |out| ==> CategoryBecomes(given[i], servers, out[i])
  }

  lemma {:induction false} NoBlankIsOneWord(s: string)
    requires s != "" && !HasBlank(s)
    ensures WordCount(s) == 1
  {
    assert !IsWhitespace(s[|s| - 1]);
    if |s| > 1 {
      assert !IsWhitespace(s[|s| - 2]);
      NoBlankIsOneWord(s[..|s| - 1]);
    }
  }

  lemma OneWordIff(tag: string)
    ensures Trim(tag) != "" ==> (WordCount(Trim(tag)) == 1 <==> !HasBlank(Trim(tag)))
  {
    var s := Trim(tag);
    TrimShape(tag);
    if s != "" {
      OneWordHasNoBlank(s);
      if !HasBlank(s) {
        NoBlankIsOneWord(s);
      }
    }
  }

  /** Nobody before it has the name or the tag of `c`. */
  ghost predicate NewAmong(earlier: seq<Category>, c: Category) {
    && (forall i :: 0 <= i < |earlier| ==> Trim(earlier[i].name) != Trim(c.name))
    && (forall i :: 0 <= i < |earlier| ==> Trim(earlier[i].wantedTag) != Trim(c.wantedTag))
  }

  lemma CategoriesOkSnoc(init: seq<Category>, last: Category, servers: seq<Server>)
    ensures CategoriesOk(init + [last], servers) <==>
      CategoriesOk(init, servers) && CategoryOk(last, servers) && NewAmong(init, last)
  {
    hide CategoryOk;
    var all := init + [last];
    assert all[..|init|] == init && all[|init|] == last;
    assert forall i :: 0 <= i < |init| ==> all[i] == init[i];
  }

  lemma SetsBecome(given: seq<Category>, servers: seq<Server>, out: seq<Category>, c: Category)
    requires CategoriesBecome(given, servers, out)
    ensures Trim(c.name) in Names(out) <==> exists i :: 0 <= i < |given| && Trim(given[i].name) == Trim(c.name)
    ensures Trim(c.wantedTag) in WantedTags(out) <==> exists i :: 0 <= i < |given| && Trim(given[i].wantedTag) == Trim(c.wantedTag)
  {
    hide BoundTo;
    forall i | 0 <= i < |given| ensures Trim(given[i].name) in Names(out) && Trim(given[i].wantedTag) in WantedTags(out) {
      assert out[i] in out;
    }
  }

  lemma ServerIdIs(c: Category, servers: seq<Server>)
    ensures CategoryServerId(c, servers).Some? ==> BoundTo(c, servers, CategoryServerId(c, servers).value)
    ensures CategoryServerId(c, servers) == None <==> Trim(c.serverId) == "" && (servers == [] || Trim(servers[0].id) == "")
    ensures ServerExists(c, servers) <==> CategoryServerId(c, servers).Some? && CategoryServerId(c, servers).value in KnownIds(servers)
  {
  }

  /** What is wrong with the `k`-th category, given that all before it are accepted. */
  ghost predicate CategoryComplaint(e: ConfigError, categories: seq<Category>, servers: seq<Server>, k: nat)
    requires k < |categories|
  {
    var c := categories[k];
    match e
    case NoServerForCategory(name) => name == Trim(c.name) && Trim(c.serverId) == "" && (servers == [] || Trim(servers[0].id) == "")
    case CategoryField(position, field) => position == k + 1 && FieldIsWrong(c, field)
    case UnknownServer(name, id) =>
      name == Trim(c.name) && BoundTo(c, servers, id) && forall j :: 0 <= j < |servers| ==> Trim(servers[j].id) != id
    case DuplicateCategory(name) => name == Trim(c.name) && exists i :: 0 <= i < k && Trim(categories[i].name) == name
    case DuplicateWantedTag(tag) => tag == Trim(c.wantedTag) && exists i :: 0 <= i < k && Trim(categories[i].wantedTag) == tag
    case _ => false
  }

  ghost predicate FieldIsWrong(c: Category, field: string) {
    || (field == "name" && Trim(c.name) == "")
    || (field == "wanted_tag" && (Trim(c.wantedTag) == "" || HasBlank(Trim(c.wantedTag))))
    || (field == "qb_category" && Trim(c.qbCategory) == "")
    || (field == "qb_save_dir_name" && Trim(c.saveDirName) == "")
    || (field == "download_dir" && Trim(c.downloadDir) == "")
    || (field == "link_target_dir" && Trim(c.linkTargetDir) == "")
  }

  lemma CheckIs(c: Category, id: string, position: nat, known: set<string>, names: set<string>, tags: set<string>)
    ensures var r := CheckCategory(TrimCategory(c, id), position, known, names, tags);
      && (r == None <==> FieldsOk(c) && id in known && Trim(c.name) !in names && Trim(c.wantedTag) !in tags)
      && match r
         case None => true
         case Some(CategoryField(p, field)) => p == position && FieldIsWrong(c, field)
         case Some(UnknownServer(name, i)) => name == Trim(c.name) && i == id && id !in known
         case Some(DuplicateCategory(name)) => name == Trim(c.name) && name in names
         case Some(DuplicateWantedTag(tag)) => tag == Trim(c.wantedTag) && tag in tags
         case Some(_) => false
  {
    OneWordIff(c.wantedTag);
    hide HasBlank, Trim, WordCount;
  }

  lemma KnownIs(servers: seq<Server>, id: string)
    ensures id in KnownIds(servers) <==> id != "" && exists j :: 0 <= j < |servers| && Trim(servers[j].id) == id
  {
    if j :| 0 <= j < |servers| && Trim(servers[j].id) == id {
      assert servers[j] in servers;
    }
  }

  lemma BoundIdIsFull(c: Category, servers: seq<Server>)
    ensures CategoryServerId(c, servers).Some? ==> CategoryServerId(c, servers).value != ""
  {
  }

  lemma BecomesSnoc(given: seq<Category>, servers: seq<Server>, out: seq<Category>, last: Category, c: Category)
    requires CategoriesBecome(given, servers, out) && CategoryBecomes(last, servers, c)
    ensures CategoriesBecome(given + [last], servers, out + [c])
  {
    hide CategoryBecomes;
  }

  lemma NewAmongIff(given: seq<Category>, servers: seq<Server>, out: seq<Category>, c: Category)
    requires CategoriesBecome(given, servers, out)
    ensures Trim(c.name) !in Names(out) && Trim(c.wantedTag) !in WantedTags(out) <==> NewAmong(given, c)
  {
    hide Names, WantedTags, CategoriesBecome;
    SetsBecome(given, servers, out, c);
  }

  lemma NextCategoryAccepted(given: seq<Category>, out: seq<Category>, last: Category, servers: seq<Server>)
    requires CategoriesBecome(given, servers, out)
    ensures var r := NextCategory(out, last, |given| + 1, servers);
      && (r.Ok? <==> CategoryOk(last, servers) && NewAmong(given, last))
      && (r.Ok? ==> CategoriesBecome(given + [last], servers, r.value))
  {
    ServerIdIs(last, servers);
    NewAmongIff(given, servers, out, last);
    hide CategoriesBecome, CheckCategory, BoundTo, Names, WantedTags, KnownIds, CategoryServerId, FieldsOk, ServerExists, NewAmong, Trim;
    if CategoryServerId(last, servers).Some? {
      var id := CategoryServerId(last, servers).value;
      CheckIs(last, id, |given| + 1, KnownIds(servers), Names(out), WantedTags(out));
      BecomesSnoc(given, servers, out, last, TrimCategory(last, id));
    }
  }

  lemma UnknownIsTrue(c: Category, servers: seq<Server>, id: string)
    requires CategoryServerId(c, servers) == Some(id) && id !in KnownIds(servers)
    ensures BoundTo(c, servers, id) && forall j :: 0 <= j < |servers| ==> Trim(servers[j].id) != id
  {
    hide KnownIds;
    ServerIdIs(c, servers);
    KnownIs(servers, id);
  }

  lemma TakenIsTrue(given: seq<Category>, servers: seq<Server>, out: seq<Category>, last: Category)
    requires CategoriesBecome(given, servers, out)
    ensures var all := given + [last];
      && (Trim(last.name) in Names(out) ==> exists i :: 0 <= i < |given| && Trim(all[i].name) == Trim(last.name))
      && (Trim(last.wantedTag) in WantedTags(out) ==> exists i :: 0 <= i < |given| && Trim(all[i].wantedTag) == Trim(last.wantedTag))
  {
    hide CategoriesBecome, Names, WantedTags;
    SetsBecome(given, servers, out, last);
    NamedBefore(given, last);
  }

  lemma ComplaintIsTrue(given: seq<Category>, out: seq<Category>, last: Category, id: string, servers: seq<Server>)
    requires CategoriesBecome(given, servers, out) && CategoryServerId(last, servers) == Some(id)
    ensures var r := CheckCategory(TrimCategory(last, id), |given| + 1, KnownIds(servers), Names(out), WantedTags(out));
      r.Some? ==> CategoryComplaint(r.value, given + [last], servers, |given|)
  {
    hide CategoriesBecome, CheckCategory, FieldIsWrong, FieldsOk, Names, WantedTags, BoundTo, ServerExists, CategoryServerId, Trim, KnownIds;
    assert (given + [last])[|given|] == last;
    CheckIs(last, id, |given| + 1, KnownIds(servers), Names(out), WantedTags(out));
    TakenIsTrue(given, servers, out, last);
    if id !in KnownIds(servers) {
      UnknownIsTrue(last, servers, id);
    }
  }

  lemma NextCategoryRefused(given: seq<Category>, out: seq<Category>, last: Category, servers: seq<Server>)
    requires CategoriesBecome(given, servers, out)
    ensures var r := NextCategory(out, last, |given| + 1, servers);
      r.Err? ==> CategoryComplaint(r.error, given + [last], servers, |given|)
  {
    hide CategoriesBecome, CheckCategory, FieldIsWrong, BoundTo, ServerExists, CategoryServerId, Trim;
    assert (given + [last])[|given|] == last;
    ServerIdIs(last, servers);
    if CategoryServerId(last, servers).Some? {
      hide CategoryComplaint;
      ComplaintIsTrue(given, out, last, CategoryServerId(last, servers).value, servers);
    }
  }

  lemma NamedBefore(given: seq<Category>, last: Category)
    ensures var all := given + [last];
      && (forall i :: 0 <= i < |given| ==> Trim(all[i].name) == Trim(given[i].name))
      && (forall i :: 0 <= i < |given| ==> Trim(all[i].wantedTag) == Trim(given[i].wantedTag))
  {
  }

  /**
   Categories are accepted if and only if every one has all its fields, a wanted tag without white
   space and a server that exists, and no two share a name or a wanted tag; each comes out trimmed,
   in its place, bound to that server.
   */
  lemma {:induction false} CategoriesAcceptedIff(categories: seq<Category>, servers: seq<Server>)
    ensures NormalizeCategories(categories, servers).Ok? <==> CategoriesOk(categories, servers)
    ensures NormalizeCategories(categories, servers).Ok? ==>
      CategoriesBecome(categories, servers, NormalizeCategories(categories, servers).value)
  {
    if categories != [] {
      hide CategoriesOk, CategoryOk, NewAmong, NextCategory, CategoriesBecome, CategoryComplaint;
      var init, last := categories[..|categories| - 1], categories[|categories| - 1];
      assert categories == init + [last];
      CategoriesAcceptedIff(init, servers);
      CategoriesOkSnoc(init, last, servers);
      if NormalizeCategories(init, servers).Ok? {
        NextCategoryAccepted(init, NormalizeCategories(init, servers).value, last, servers);
      }
    }
  }

  /** A refusal is about the first category that is not accepted, and what it says of it is so. */
  lemma {:induction false} CategoryRefusalIsTrue(categories: seq<Category>, servers: seq<Server>) returns (k: nat)
    requires NormalizeCategories(categories, servers).Err?
    ensures k < |categories| && CategoriesOk(categories[..k], servers) && !CategoriesOk(categories[..k + 1], servers)
    ensures CategoryComplaint(NormalizeCategories(categories, servers).error, categories[..k + 1], servers, k)
  {
    hide CategoriesOk, CategoryOk, NewAmong, NextCategory, CategoriesBecome, CategoryComplaint;
    var init, last := categories[..|categories| - 1], categories[|categories| - 1];
    assert categories == init + [last];
    CategoriesAcceptedIff(init, servers);
    if NormalizeCategories(init, servers).Err? {
      k := CategoryRefusalIsTrue(init, servers);
      assert init[..k] == categories[..k] && init[..k + 1] == categories[..k + 1];
    } else {
      k := |init|;
      assert categories[..k] == init && categories[..k + 1] == categories;
      CategoriesAcceptedIff(categories, servers);
      NextCategoryRefused(init, NormalizeCategories(init, servers).value, last, servers);
    }
  }

  // ----------------------------------------------------------------------- rules

  /** Some keyword of the list is more than white space. */
  ghost predicate HasKeyword(values: seq<string>) {
    exists k :: 0 <= k < |values| && Trim(values[k]) != ""
  }

  lemma KeywordsLeft(values: seq<string>)
    ensures NormalizeKeywords(values) != [] <==> HasKeyword(values)
  {
    KeywordsBecomeNormal(values);
    if NormalizeKeywords(values) != [] {
      assert NormalizeKeywords(values)[0] in NormalizeKeywords(values);
    }
    if k :| 0 <= k < |values| && Trim(values[k]) != "" {
      assert Trim(values[k]) in NormalizeKeywords(values);
    }
  }

  ghost predicate RuleOk(rule: Rule) {
    Trim(rule.name) != "" && (HasKeyword(rule.titleKeywords) || HasKeyword(rule.resolutionKeywords) || HasKeyword(rule.sourceKeywords))
  }

  ghost predicate RulesOk(rules: seq<Rule>) {
    && (forall i :: 0 <= i < |rules| ==> RuleOk(rules[i]))
    && (forall i, j :: 0 <= i < j < |rules| ==> Trim(rules[i].name) != Trim(rules[j].name))
  }

  /** The given rule with its name trimmed, its keywords trimmed and listed once, and the rest as it was. */
  ghost predicate RuleBecomes(given: Rule, rule: Rule) {
    && rule.name == Trim(given.name) && rule.priority == given.priority && rule.mode == given.mode
    && KeywordsBecome(given.titleKeywords, rule.titleKeywords)
    && KeywordsBecome(given.resolutionKeywords, rule.resolutionKeywords)
    && KeywordsBecome(given.sourceKeywords, rule.sourceKeywords)
  }

  /** Every keyword that is more than white space, trimmed, once, in the order of first occurrence. */
  ghost predicate KeywordsBecome(given: seq<string>, values: seq<string>) {
    && (forall w :: w in values <==> w != "" && exists k :: 0 <= k < |given| && Trim(given[k]) == w)
    && (forall i, j :: 0 <= i < j < |values| ==> FirstAt(given, values[i]) < FirstAt(given, values[j]))
  }

  /** Where a trimmed keyword first occurs. */
  function FirstAt(given: seq<string>, w: string): (k: nat)
    ensures k <= |given| && (k < |given| ==> Trim(given[k]) == w) && forall i :: 0 <= i < k ==> Trim(given[i]) != w
  {
    if given == [] || Trim(given[0]) == w then 0 else FirstAt(given[1..], w) + 1
  }

  lemma {:induction false} FirstAtSnoc(init: seq<string>, last: string, w: string)
    ensures FirstAt(init, w) < |init| ==> FirstAt(init + [last], w) == FirstAt(init, w)
    ensures FirstAt(init, w) == |init| && Trim(last) == w ==> FirstAt(init + [last], w) == |init|
  {
    if init != [] {
      assert (init + [last])[1..] == init[1..] + [last];
      FirstAtSnoc(init[1..], last, w);
    }
  }

  lemma InGiven(given: seq<string>, w: string, k: nat)
    requires k < |given| && Trim(given[k]) == w
    ensures FirstAt(given, w) < |given|
  {
  }

  lemma {:induction false} KeywordsBecomeThese(given: seq<string>)
    ensures KeywordsBecome(given, NormalizeKeywords(given))
  {
    KeywordsBecomeNormal(given);
    if given != [] {
      var init, last := given[..|given| - 1], given[|given| - 1];
      assert given == init + [last];
      KeywordsBecomeThese(init);
      KeywordsBecomeNormal(init);
      var before, after := NormalizeKeywords(init), NormalizeKeywords(given);
      forall i | 0 <= i < |before| ensures FirstAt(init, before[i]) < |init| && FirstAt(given, before[i]) == FirstAt(init, before[i]) {
        assert before[i] in before;
        var k :| 0 <= k < |init| && Trim(init[k]) == before[i];
        InGiven(init, before[i], k);
        FirstAtSnoc(init, last, before[i]);
      }
      if after != before {
        FirstAtSnoc(init, last, Trim(last));
      }
    }
  }

  lemma TrimmedRuleBecomes(given: Rule)
    ensures RuleBecomes(given, TrimRule(given))
  {
    KeywordsBecomeThese(given.titleKeywords);
    KeywordsBecomeThese(given.resolutionKeywords);
    KeywordsBecomeThese(given.sourceKeywords);
  }

  /** What is wrong with the `k`-th rule, given that all before it are accepted. */
  ghost predicate RuleComplaint(e: ConfigError, rules: seq<Rule>, k: nat)
    requires k < |rules|
  {
    var rule := rules[k];
    match e
    case RuleWithoutName(position) => position == k + 1 && Trim(rule.name) == ""
    case DuplicateRule(name) => name == Trim(rule.name) && exists i :: 0 <= i < k && Trim(rules[i].name) == name
    case RuleWithoutKeywords(name) =>
      && name == Trim(rule.name)
      && !HasKeyword(rule.titleKeywords) && !HasKeyword(rule.resolutionKeywords) && !HasKeyword(rule.sourceKeywords)
    case _ => false
  }

  function TrimRules(rules: seq<Rule>): (r: seq<Rule>)
    ensures |r| == |rules| && forall i :: 0 <= i < |r| ==> r[i] == TrimRule(rules[i])
  {
    seq(|rules|, i requires 0 <= i < |rules| => TrimRule(rules[i]))
  }

  ghost predicate NewNameAmong(earlier: seq<Rule>, rule: Rule) {
    forall i :: 0 <= i < |earlier| ==> Trim(earlier[i].name) != Trim(rule.name)
  }

  lemma RulesOkSnoc(init: seq<Rule>, last: Rule)
    ensures RulesOk(init + [last]) <==> RulesOk(init) && RuleOk(last) && NewNameAmong(init, last)
  {
    hide RuleOk;
    var all := init + [last];
    assert all[..|init|] == init && all[|init|] == last;
    assert forall i :: 0 <= i < |init| ==> all[i] == init[i];
  }

  lemma NextRuleIs(given: seq<Rule>, last: Rule)
    ensures var r := NextRule(TrimRules(given), last, |given| + 1);
      && (r.Ok? <==> RuleOk(last) && NewNameAmong(given, last))
      && (r.Ok? ==> r.value == TrimRules(given + [last]))
      && (r.Err? ==> RuleComplaint(r.error, given + [last], |given|))
  {
    hide NormalizeKeywords, HasKeyword;
    var all, out := given + [last], TrimRules(given);
    KeywordsLeft(last.titleKeywords);
    KeywordsLeft(last.resolutionKeywords);
    KeywordsLeft(last.sourceKeywords);
    assert TrimRules(all) == out + [TrimRule(last)];
    forall i | 0 <= i < |given| ensures Trim(given[i].name) in RuleNames(out) && Trim(all[i].name) == Trim(given[i].name) {
      assert out[i] in out;
    }
  }

  lemma {:induction false} RulesCollected(rules: seq<Rule>)
    ensures CollectRules(rules).Ok? <==> RulesOk(rules)
    ensures CollectRules(rules).Ok? ==> CollectRules(rules).value == TrimRules(rules)
  {
    if rules != [] {
      hide RulesOk, RuleOk, NewNameAmong, NextRule, RuleComplaint;
      var init, last := rules[..|rules| - 1], rules[|rules| - 1];
      assert rules == init + [last];
      RulesCollected(init);
      RulesOkSnoc(init, last);
      NextRuleIs(init, last);
    }
  }

  /** The order of rules: higher priority first, equal priorities by name. */
  ghost predicate RankedBefore(a: Rule, b: Rule) {
    a.priority > b.priority || (a.priority == b.priority && ComesFirst(a.name, b.name))
  }

  lemma {:induction false} SortedRanks(rules: seq<Rule>, i: nat, j: nat)
    requires NormalRules(rules) && Sorted(rules) && i < j < |rules|
    ensures RankedBefore(rules[i], rules[j])
    decreases j - i
  {
    assert !After(rules[j - 1], rules[j]) && rules[j - 1].name != rules[j].name;
    LexAsymmetric(rules[j].name, rules[j - 1].name);
    FirstDifference(rules[j - 1].name, rules[j].name);
    if i < j - 1 {
      SortedRanks(rules, i, j - 1);
      if ComesFirst(rules[i].name, rules[j - 1].name) && ComesFirst(rules[j - 1].name, rules[j].name) {
        ComesFirstTransitive(rules[i].name, rules[j - 1].name, rules[j].name);
      }
    }
  }

  /**
   Rules are accepted if and only if every one has a name and a keyword and no two share a name; they
   come out by falling priority and then by name, each once, with trimmed name and keywords.
   */
  lemma RulesAcceptedIff(rules: seq<Rule>)
    ensures NormalizeRules(rules).Ok? <==> RulesOk(rules)
    ensures NormalizeRules(rules).Ok? ==>
      var out := NormalizeRules(rules).value;
      && multiset(out) == multiset(TrimRules(rules))
      && (forall i :: 0 <= i < |rules| ==> RuleBecomes(rules[i], TrimRules(rules)[i]))
      && (forall i, j :: 0 <= i < j < |out| ==> RankedBefore(out[i], out[j]))
  {
    RulesCollected(rules);
    if RulesOk(rules) {
      var out := NormalizeRules(rules).value;
      SortSorts(TrimRules(rules));
      RulesBecomeNormal(rules);
      RearrangedRulesStayNormal(TrimRules(rules), out);
      hide RulesOk, RuleBecomes, RankedBefore, SortRules, NormalRules, Sorted;
      forall i | 0 <= i < |rules| ensures RuleBecomes(rules[i], TrimRules(rules)[i]) {
        TrimmedRuleBecomes(rules[i]);
      }
      forall i, j | 0 <= i < j < |out| ensures RankedBefore(out[i], out[j]) {
        SortedRanks(out, i, j);
      }
    }
  }

  /** A refusal is about the first rule that is not accepted, and what it says of it is so. */
  lemma {:induction false} RuleRefusalIsTrue(rules: seq<Rule>) returns (k: nat)
    requires CollectRules(rules).Err?
    ensures k < |rules| && RulesOk(rules[..k]) && !RulesOk(rules[..k + 1])
    ensures NormalizeRules(rules) == Err(CollectRules(rules).error) && RuleComplaint(CollectRules(rules).error, rules[..k + 1], k)
  {
    hide RulesOk, RuleOk, NewNameAmong, NextRule, RuleComplaint;
    var init, last := rules[..|rules| - 1], rules[|rules| - 1];
    assert rules == init + [last];
    RulesCollected(init);
    if CollectRules(init).Err? {
      k := RuleRefusalIsTrue(init);
      assert init[..k] == rules[..k] && init[..k + 1] == rules[..k + 1];
    } else {
      k := |init|;
      assert rules[..k] == init && rules[..k + 1] == rules;
      RulesCollected(rules);
      NextRuleIs(init, last);
    }
  }

  // --------------------------------------------------------------------- watcher

  /** The number within the bounds that is nearest to `n`. */
  predicate Nearest(n: nat, low: nat, high: nat, r: nat) {
    low <= r <= high && (low <= n <= high ==> r == n) && (n < low ==> r == low) && (n > high ==> r == high)
  }

  predicate AtLeastOf(n: nat, low: nat, r: nat) {
    low <= r && (n >= low ==> r == n) && (n < low ==> r == low)
  }

  /** Every interval and limit of the watcher is brought within its bounds, and nothing else changes. */
  lemma WatcherBounds(w: Watcher)
    ensures var r := NormalizeWatcher(w);
      && Nearest(w.pollInterval, 60, 86_400, r.pollInterval) && Nearest(w.libraryLimit, 1, 1200, r.libraryLimit)
      && Nearest(w.maxRetries, 1, 20, r.maxRetries) && AtLeastOf(w.searchInterval, 30, r.searchInterval)
      && AtLeastOf(w.progressInterval, 1, r.progressInterval) && AtLeastOf(w.linkRetryInterval, 30, r.linkRetryInterval)
      && AtLeastOf(w.systemRetryInterval, 30, r.systemRetryInterval)
      && r.enabled == w.enabled && r.dryRun == w.dryRun && r.bootstrapExistingAsSkipped == w.bootstrapExistingAsSkipped
  {
  }

  // --------------------------------------------------------------------- servers

  /** Servers are accepted if and only if every one has an address that parses as a base URL. */
  lemma {:induction false} ServersAcceptedIff(servers: seq<Server>, env: Env)
    ensures NormalizeServers(servers, env).Ok? <==> ServersOk(servers, env)
  {
    if servers != [] {
      var init, last := servers[..|servers| - 1], servers[|servers| - 1];
      assert servers == init + [last];
      ServersAcceptedIff(init, env);
    }
  }

  /** The given server with its name, address and user name trimmed, under a new identifier. */
  predicate ServerBecomes(given: Server, server: Server) {
    && server.name == Trim(given.name) && server.baseUrl == Trim(given.baseUrl) && server.username == Trim(given.username)
    && server.password == given.password && server.insecureTls == given.insecureTls
  }

  /** Every accepted server comes out in its place, and no two have one identifier. */
  lemma ServersBecome(servers: seq<Server>, env: Env)
    requires NormalizeServers(servers, env).Ok?
    ensures var out := NormalizeServers(servers, env).value;
      && |out| == |servers| && (forall i :: 0 <= i < |out| ==> ServerBecomes(servers[i], out[i]))
      && forall i, j :: 0 <= i < j < |out| ==> out[i].id != out[j].id
  {
    hide NormalizeServers, NormalServer;
    ServersBecomeNormal(servers, env);
  }

  /** The identifier a server asks for: its own, else its name, else its address, sanitised, or a hash of all three. */
  ghost predicate AsksFor(server: Server, env: Env, base: string) {
    && (Sanitize(server.id) != "" ==> base == Sanitize(server.id))
    && (Sanitize(server.id) == "" && Sanitize(server.name) != "" ==> base == Sanitize(server.name))
    && (Sanitize(server.id) == "" && Sanitize(server.name) == "" && Sanitize(server.baseUrl) != "" ==> base == Sanitize(server.baseUrl))
    && (Sanitize(server.id) == "" && Sanitize(server.name) == "" && Sanitize(server.baseUrl) == "" ==>
          base == "qb-" + Hex(env.serverHash(Trim(server.name), Trim(server.baseUrl), Trim(server.username))))
  }

  /** It gets it if no server before it has it, and else the first of `base-2`, `base-3`, … that none has. */
  ghost predicate Gets(earlier: seq<Server>, base: string, id: string) {
    if forall i :: 0 <= i < |earlier| ==> earlier[i].id != base then id == base
    else exists n: nat :: n >= 2 && IsNumbered(earlier, base, n, id)
  }

  ghost predicate IsNumbered(earlier: seq<Server>, base: string, n: nat, id: string) {
    && id == base + "-" + Decimal.Print(n)
    && (forall i :: 0 <= i < |earlier| ==> earlier[i].id != id)
    && (forall m :: 2 <= m < n ==> exists i :: 0 <= i < |earlier| && earlier[i].id == base + "-" + Decimal.Print(m))
  }

  lemma IdsAre(earlier: seq<Server>, id: string)
    ensures id in Ids(earlier) <==> exists i :: 0 <= i < |earlier| && earlier[i].id == id
  {
    if i :| 0 <= i < |earlier| && earlier[i].id == id {
      assert earlier[i] in earlier;
    }
  }

  lemma UniqueIdIs(earlier: seq<Server>, base: string)
    ensures Gets(earlier, base, UniqueId(base, Ids(earlier)))
  {
    hide Ids;
    IdsAre(earlier, base);
    if base in Ids(earlier) {
      var n := FirstFree(base, Ids(earlier), 2);
      var id := UniqueId(base, Ids(earlier));
      IdsAre(earlier, id);
      forall m | 2 <= m < n ensures exists i :: 0 <= i < |earlier| && earlier[i].id == base + "-" + Decimal.Print(m) {
        assert Candidate(base, m) in Ids(earlier);
        IdsAre(earlier, Candidate(base, m));
      }
      assert IsNumbered(earlier, base, n, id);
    }
  }

  lemma NextServerId(out: seq<Server>, server: Server, env: Env)
    requires NextServer(out, server, env).Ok?
    ensures var next := NextServer(out, server, env).value;
      && |next| == |out| + 1 && next[..|out|] == out
      && AsksFor(server, env, IdBase(server, env)) && GetsAt(next, |out|, IdBase(server, env))
  {
    hide Gets, UniqueId, Ids;
    UniqueIdIs(out, IdBase(server, env));
    assert NextServer(out, server, env).value[..|out|] == out;
  }

  lemma ServersInit(servers: seq<Server>, env: Env)
    requires servers != [] && NormalizeServers(servers, env).Ok?
    ensures var init, last := NormalizeServers(servers[..|servers| - 1], env), servers[|servers| - 1];
      init.Ok? && NormalizeServers(servers, env) == NextServer(init.value, last, env)
  {
  }

  /** The server in that place gets an identifier, given those before it. */
  ghost predicate GetsAt(out: seq<Server>, k: nat, base: string) {
    k < |out| && Gets(out[..k], base, out[k].id)
  }

  lemma SamePlace(a: seq<Server>, b: seq<Server>, k: nat, base: string)
    requires |a| <= |b| && b[..|a|] == a && GetsAt(a, k, base)
    ensures GetsAt(b, k, base)
  {
    hide Gets;
    assert a[..k] == b[..k] && a[k] == b[k];
  }

  /** Which identifier each server ends up with. */
  lemma {:induction false} ServerIdsAre(servers: seq<Server>, env: Env, k: nat) returns (base: string)
    requires NormalizeServers(servers, env).Ok? && k < |servers|
    ensures var out := NormalizeServers(servers, env).value;
      AsksFor(servers[k], env, base) && GetsAt(out, k, base)
  {
    hide AsksFor, GetsAt, NextServer, NormalizeServers, IdBase;
    ServersInit(servers, env);
    var init, last := servers[..|servers| - 1], servers[|servers| - 1];
    var out, before := NormalizeServers(servers, env).value, NormalizeServers(init, env).value;
    NextServerId(before, last, env);
    if k < |init| {
      base := ServerIdsAre(init, env, k);
      SamePlace(before, out, k, base);
      assert init[k] == servers[k];
    } else {
      base := IdBase(last, env);
    }
  }

  // --------------------------------------------------------- whole configurations

  /** The address listened on: the one given, or the loopback address when none is. */
  predicate ListensOn(cfg: FileConfig, ip: string) {
    if Trim(cfg.listenIp) == "" then ip == "127.0.0.1" else ip == Trim(cfg.listenIp)
  }

  lemma {:induction false} OriginsAcceptedIff(origins: seq<string>, env: Env)
    ensures CheckOrigins(origins, env) == None <==> forall i :: 0 <= i < |origins| ==> env.originOk(origins[i])
    ensures CheckOrigins(origins, env).Some? ==> exists i :: 0 <= i < |origins| && CheckOrigins(origins, env) == Some(BadOrigin(origins[i])) && !env.originOk(origins[i])
  {
    if origins != [] && env.originOk(origins[0]) {
      OriginsAcceptedIff(origins[1..], env);
      if i :| 0 <= i < |origins[1..]| && CheckOrigins(origins[1..], env) == Some(BadOrigin(origins[1..][i])) && !env.originOk(origins[1..][i]) {
        assert origins[i + 1] == origins[1..][i];
      }
    }
  }

  ghost predicate ManagementOk(cfg: FileConfig, env: Env) {
    exists ip :: ListensOn(cfg, ip) && env.parseIp(ip).Some? && TokenOk(cfg, env.parseIp(ip).value)
  }

  /** A token of at least 24 characters; none at all only for a loopback address. */
  predicate TokenOk(cfg: FileConfig, loopback: bool) {
    var token := Trim(cfg.management.adminToken);
    |token| >= 24 || (token == "" && loopback)
  }

  ghost predicate OriginsOk(cfg: FileConfig, env: Env) {
    forall i :: 0 <= i < |cfg.management.allowedOrigins| ==> env.originOk(cfg.management.allowedOrigins[i])
  }

  /** A configuration is valid if and only if its address parses, its token is long enough or not needed, and its origins are origins. */
  lemma ValidIff(cfg: FileConfig, env: Env)
    ensures Validate(cfg, env) == None <==> ManagementOk(cfg, env) && OriginsOk(cfg, env)
  {
    OriginsAcceptedIff(cfg.management.allowedOrigins, env);
    assert ListensOn(cfg, ListenIp(cfg));
  }

  /** And what it is refused for is so. */
  lemma InvalidIsTrue(cfg: FileConfig, env: Env)
    requires Validate(cfg, env).Some?
    ensures match Validate(cfg, env).value
            case BadListenIp => env.parseIp(ListenIp(cfg)) == None && ListensOn(cfg, ListenIp(cfg))
            case ShortAdminToken => 0 < |Trim(cfg.management.adminToken)| < 24
            case BadOrigin(origin) => origin in cfg.management.allowedOrigins && !env.originOk(origin)
            case AdminTokenRequired => Trim(cfg.management.adminToken) == "" && env.parseIp(ListenIp(cfg)) == Some(false)
            case _ => false
  {
    OriginsAcceptedIff(cfg.management.allowedOrigins, env);
  }

  ghost predicate ServersOk(servers: seq<Server>, env: Env) {
    forall i :: 0 <= i < |servers| ==> Trim(servers[i].baseUrl) != "" && env.baseUrlOk(Trim(servers[i].baseUrl))
  }

  /** Each of its parts is in order, the categories against the servers as normalised. */
  ghost predicate ConfigOk(cfg: FileConfig, env: Env) {
    && ServersOk(cfg.servers, env)
    && (forall servers :: NormalizeServers(cfg.servers, env) == Ok(servers) ==> CategoriesOk(cfg.categories, servers))
    && RulesOk(cfg.rules) && ManagementOk(cfg, env) && OriginsOk(cfg, env)
  }

  /** A whole configuration is accepted if and only if each of its parts is. */
  lemma ConfigAcceptedIff(cfg: FileConfig, env: Env)
    ensures NormalizeConfig(cfg, env).Ok? <==> ConfigOk(cfg, env)
    ensures NormalizeConfig(cfg, env).Ok? ==>
      var next := NormalizeConfig(cfg, env).value;
      && next == cfg.(servers := next.servers, categories := next.categories, watcher := next.watcher, rules := next.rules)
      && NormalizeServers(cfg.servers, env) == Ok(next.servers) && NormalizeCategories(cfg.categories, next.servers) == Ok(next.categories)
      && NormalizeRules(cfg.rules) == Ok(next.rules) && next.watcher == NormalizeWatcher(cfg.watcher)
  {
    hide NormalizeServers, NormalizeCategories, NormalizeRules, CategoriesOk, RulesOk, ManagementOk, OriginsOk, Validate;
    ServersAcceptedIff(cfg.servers, env);
    RulesAcceptedIff(cfg.rules);
    if NormalizeServers(cfg.servers, env).Ok? {
      var servers := NormalizeServers(cfg.servers, env).value;
      CategoriesAcceptedIff(cfg.categories, servers);
      if NormalizeCategories(cfg.categories, servers).Ok? && NormalizeRules(cfg.rules).Ok? {
        var next := cfg.(servers := servers, categories := NormalizeCategories(cfg.categories, servers).value,
                         watcher := NormalizeWatcher(cfg.watcher), rules := NormalizeRules(cfg.rules).value);
        ValidIff(next, env);
        SameManagement(cfg, next, env);
      }
    }
  }

  lemma SameManagement(cfg: FileConfig, next: FileConfig, env: Env)
    requires next.management == cfg.management && next.listenIp == cfg.listenIp
    ensures ManagementOk(next, env) <==> ManagementOk(cfg, env)
    ensures OriginsOk(next, env) <==> OriginsOk(cfg, env)
  {
    if ip :| ListensOn(cfg, ip) && env.parseIp(ip).Some? && TokenOk(cfg, env.parseIp(ip).value) {
      assert ListensOn(next, ip) && TokenOk(next, env.parseIp(ip).value);
    }
    if ip :| ListensOn(next, ip) && env.parseIp(ip).Some? && TokenOk(next, env.parseIp(ip).value) {
      assert ListensOn(cfg, ip) && TokenOk(cfg, env.parseIp(ip).value);
    }
  }

  /** The defaults are valid and normal wherever `127.0.0.1` is a loopback address. */
  lemma DefaultsAreNormal(env: Env)
    requires env.parseIp("127.0.0.1") == Some(true)
    ensures NormalConfig(DefaultConfig(), env)
  {
    assert Trim("127.0.0.1") == "127.0.0.1" by {
      TrimShape("127.0.0.1");
    }
    assert Trim("") == "";
  }
}
