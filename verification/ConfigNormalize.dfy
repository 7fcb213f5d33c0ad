/**
 Normalising a whole configuration: identifiers made unique, text trimmed, keywords deduplicated,
 intervals clamped, rules sorted. What is normal is left exactly as it is, so loading twice
 rewrites nothing.
 */
module ConfigNormalize {
  import opened Wrappers
  import opened Text
  import opened ServerIds

  datatype Server = Server(
    id: string, name: string, baseUrl: string, username: string, password: string, insecureTls: bool)

  datatype Category = Category(
    name: string, wantedTag: string, serverId: string, qbCategory: string,
    saveDirName: string, downloadDir: string, linkTargetDir: string)

  datatype Watcher = Watcher(
    enabled: bool, dryRun: bool, pollInterval: nat, libraryLimit: nat, maxRetries: nat, searchInterval: nat,
    progressInterval: nat, linkRetryInterval: nat, systemRetryInterval: nat, bootstrapExistingAsSkipped: bool)

  datatype MatchMode = All | Any

  datatype Rule = Rule(
    name: string, priority: int, mode: MatchMode,
    titleKeywords: seq<string>, resolutionKeywords: seq<string>, sourceKeywords: seq<string>)

  datatype Management = Management(adminToken: string, allowedOrigins: seq<string>, secureCookie: bool)

  datatype FileConfig = FileConfig(
    listenIp: string, listenPort: nat, tmdbApiKey: string, mteamApiKey: string, doubanCookie: string,
    servers: seq<Server>, categories: seq<Category>, watcher: Watcher, rules: seq<Rule>, management: Management)

  datatype ConfigError =
    | EmptyBaseUrl
    | BadBaseUrl
    | NoServerForCategory(name: string)
    | CategoryField(position: nat, field: string)
    | UnknownServer(name: string, serverId: string)
    | DuplicateCategory(name: string)
    | DuplicateWantedTag(tag: string)
    | RuleWithoutName(position: nat)
    | DuplicateRule(name: string)
    | RuleWithoutKeywords(name: string)
    | BadListenIp
    | ShortAdminToken
    | BadOrigin(origin: string)
    | AdminTokenRequired

  /** URL and address parsing, and the hash behind last-resort ids, as the libraries provide them. */
  datatype Env = Env(
    baseUrlOk: string -> bool,
    originOk: string -> bool,
    parseIp: string -> Option<bool>,                       // whether the address is a loopback one
    serverHash: (string, string, string) -> nat)

  // --------------------------------------------------------------------- servers

  function IdBase(server: Server, env: Env): string {
    if Sanitize(server.id) != "" then Sanitize(server.id)
    else if Sanitize(server.name) != "" then Sanitize(server.name)
    else if Sanitize(server.baseUrl) != "" then Sanitize(server.baseUrl)
    else FallbackId(env.serverHash(Trim(server.name), Trim(server.baseUrl), Trim(server.username)))
  }

  function CheckBaseUrl(baseUrl: string, env: Env): Option<ConfigError> {
    if baseUrl == "" then Some(EmptyBaseUrl) else if !env.baseUrlOk(baseUrl) then Some(BadBaseUrl) else None
  }

  function Ids(servers: seq<Server>): set<string> {
    set server | server in servers :: server.id
  }

  function TrimServer(server: Server, id: string): Server {
    Server(id, Trim(server.name), Trim(server.baseUrl), Trim(server.username), server.password, server.insecureTls)
  }

  /** One more server, after those already in `out`. */
  function NextServer(out: seq<Server>, server: Server, env: Env): Result<seq<Server>, ConfigError> {
    match CheckBaseUrl(Trim(server.baseUrl), env)
    case Some(e) => Err(e)
    case None => Ok(out + [TrimServer(server, UniqueId(IdBase(server, env), Ids(out)))])
  }

  function NormalizeServers(servers: seq<Server>, env: Env): (r: Result<seq<Server>, ConfigError>)
    ensures r.Ok? ==> |r.value| == |servers|
  {
    if servers == [] then Ok([]) else
    match NormalizeServers(servers[..|servers| - 1], env)
    case Err(e) => Err(e)
    case Ok(out) => NextServer(out, servers[|servers| - 1], env)
  }

  lemma ServersStep(servers: seq<Server>, env: Env, k: nat, out: seq<Server>)
    requires k < |servers| && NormalizeServers(servers[..k], env) == Ok(out)
    ensures NormalizeServers(servers[..k + 1], env) == NextServer(out, servers[k], env)
  {
    assert servers[..k + 1][..k] == servers[..k];
  }

  lemma IdsSnoc(out: seq<Server>, server: Server)
    ensures Ids(out + [server]) == Ids(out) + {server.id}
  {
  }

  /** Errors in an initial segment are errors of the whole. */
  lemma {:induction false} ServersFailEarly(servers: seq<Server>, env: Env, k: nat)
    requires k <= |servers| && NormalizeServers(servers[..k], env).Err?
    ensures NormalizeServers(servers, env) == NormalizeServers(servers[..k], env)
  {
    if k < |servers| {
      assert servers[..|servers| - 1][..k] == servers[..k];
      ServersFailEarly(servers[..|servers| - 1], env, k);
    } else {
      assert servers[..k] == servers;
    }
  }

  method NormalizeQbServers(servers: seq<Server>, env: Env) returns (r: Result<seq<Server>, ConfigError>)
    ensures r == NormalizeServers(servers, env)
  {
    var used: set<string> := {};
    var out: seq<Server> := [];
    for k := 0 to |servers|
      invariant NormalizeServers(servers[..k], env) == Ok(out) && used == Ids(out)
    {
      ServersStep(servers, env, k, out);
      var server := servers[k];
      var id;
      id, used := FindUniqueId(IdBase(server, env), used);
      var baseUrl := Trim(server.baseUrl);
      var invalid := CheckBaseUrl(baseUrl, env);
      if invalid.Some? {
        ServersFailEarly(servers, env, k + 1);
        return Err(invalid.value);
      }
      var normalized := Server(id, Trim(server.name), baseUrl, Trim(server.username), server.password, server.insecureTls);
      IdsSnoc(out, normalized);
      out := out + [normalized];
    }
    assert servers[..|servers|] == servers;
    r := Ok(out);
  }

  predicate NormalServer(server: Server, env: Env) {
    && CleanId(server.id) && server.id != ""
    && Trim(server.name) == server.name && Trim(server.username) == server.username
    && Trim(server.baseUrl) == server.baseUrl && CheckBaseUrl(server.baseUrl, env) == None
  }

  predicate DistinctIds(servers: seq<Server>) {
    forall i, j :: 0 <= i < j < |servers| ==> servers[i].id != servers[j].id
  }

  predicate NormalServers(servers: seq<Server>, env: Env) {
    DistinctIds(servers) && forall i :: 0 <= i < |servers| ==> NormalServer(servers[i], env)
  }

  lemma IdBaseIsClean(server: Server, env: Env)
    ensures CleanId(IdBase(server, env)) && IdBase(server, env) != ""
  {
    SanitizeIsClean(server.id);
    SanitizeIsClean(server.name);
    SanitizeIsClean(server.baseUrl);
    FallbackIsClean(env.serverHash(Trim(server.name), Trim(server.baseUrl), Trim(server.username)));
  }

  lemma TrimmedServerIsNormal(server: Server, used: set<string>, env: Env)
    requires CheckBaseUrl(Trim(server.baseUrl), env) == None
    ensures NormalServer(TrimServer(server, UniqueId(IdBase(server, env), used)), env)
  {
    IdBaseIsClean(server, env);
    UniqueIdIsClean(IdBase(server, env), used);
    TrimShape(server.name);
    TrimShape(server.baseUrl);
    TrimShape(server.username);
  }

  lemma FreshServerKeepsNormal(out: seq<Server>, server: Server, env: Env)
    requires NormalServers(out, env) && NormalServer(server, env) && server.id !in Ids(out)
    ensures NormalServers(out + [server], env)
  {
    forall i | 0 <= i < |out| ensures out[i].id != server.id {
      assert out[i] in out;
    }
  }

  /** Each result is the server given in its place, trimmed, under its new id. */
  predicate InPlace(out: seq<Server>, servers: seq<Server>) {
    |out| == |servers| && forall i :: 0 <= i < |out| ==> out[i] == TrimServer(servers[i], out[i].id)
  }

  lemma NextServerIsNormal(out: seq<Server>, given: seq<Server>, server: Server, env: Env)
    requires NormalServers(out, env) && InPlace(out, given) && NextServer(out, server, env).Ok?
    ensures NormalServers(NextServer(out, server, env).value, env)
    ensures InPlace(NextServer(out, server, env).value, given + [server])
  {
    TrimmedServerIsNormal(server, Ids(out), env);
    FreshServerKeepsNormal(out, TrimServer(server, UniqueId(IdBase(server, env), Ids(out))), env);
  }

  /** Normalising gives pairwise distinct, sanitised ids, one server for each given one, in order. */
  lemma {:induction false} ServersBecomeNormal(servers: seq<Server>, env: Env)
    requires NormalizeServers(servers, env).Ok?
    ensures NormalServers(NormalizeServers(servers, env).value, env)
    ensures InPlace(NormalizeServers(servers, env).value, servers)
  {
    hide NormalServer, NextServer;
    if servers != [] {
      var init, last := servers[..|servers| - 1], servers[|servers| - 1];
      var out := NormalizeServers(init, env).value;
      ServersBecomeNormal(init, env);
      NextServerIsNormal(out, init, last, env);
      assert NormalizeServers(servers, env) == NextServer(out, last, env) && servers == init + [last];
    }
  }

  lemma NormalServerKeepsId(server: Server, used: set<string>, env: Env)
    requires NormalServer(server, env) && server.id !in used
    ensures TrimServer(server, UniqueId(IdBase(server, env), used)) == server
  {
    SanitizeOfClean(server.id);
  }

  lemma NextServerStays(out: seq<Server>, server: Server, env: Env)
    requires NormalServer(server, env) && server.id !in Ids(out)
    ensures NextServer(out, server, env) == Ok(out + [server])
  {
    NormalServerKeepsId(server, Ids(out), env);
  }

  lemma NormalServersSplit(servers: seq<Server>, env: Env)
    requires NormalServers(servers, env) && servers != []
    ensures var init, last := servers[..|servers| - 1], servers[|servers| - 1];
      NormalServers(init, env) && NormalServer(last, env) && last.id !in Ids(init) && init + [last] == servers
  {
  }

  /** Normal servers are left exactly as they are. */
  lemma {:induction false} NormalServersStay(servers: seq<Server>, env: Env)
    requires NormalServers(servers, env)
    ensures NormalizeServers(servers, env) == Ok(servers)
  {
    hide NormalServers, NormalServer, NextServer;
    if servers != [] {
      NormalServersSplit(servers, env);
      NormalServersStay(servers[..|servers| - 1], env);
      NextServerStays(servers[..|servers| - 1], servers[|servers| - 1], env);
    }
  }

  // ------------------------------------------------------------------ categories

  /** The number of maximal runs without whitespace. */
  function WordCount(s: string): nat {
    if s == "" then 0
    else
      var starts := !IsWhitespace(s[|s| - 1]) && (|s| == 1 || IsWhitespace(s[|s| - 2]));
      WordCount(s[..|s| - 1]) + (if starts then 1 else 0)
  }

  /** One word, and trimmed, means no whitespace at all. */
  lemma {:induction false} OneWordHasNoBlank(s: string)
    requires s != "" && !IsWhitespace(s[0])
    ensures WordCount(s) >= 1
    ensures !IsWhitespace(s[|s| - 1]) && (exists k :: 0 <= k < |s| && IsWhitespace(s[k])) ==> WordCount(s) >= 2
  {
    if |s| > 1 {
      OneWordHasNoBlank(s[..|s| - 1]);
    }
  }

  function TrimCategory(category: Category, serverId: string): Category {
    Category(Trim(category.name), Trim(category.wantedTag), serverId, Trim(category.qbCategory),
             Trim(category.saveDirName), Trim(category.downloadDir), Trim(category.linkTargetDir))
  }

  function Names(categories: seq<Category>): set<string> {
    set category | category in categories :: category.name
  }

  function WantedTags(categories: seq<Category>): set<string> {
    set category | category in categories :: category.wantedTag
  }

  function KnownIds(servers: seq<Server>): set<string> {
    set server | server in servers && Trim(server.id) != "" :: Trim(server.id)
  }

  function DefaultServerId(servers: seq<Server>): Option<string> {
    if servers == [] || Trim(servers[0].id) == "" then None else Some(Trim(servers[0].id))
  }

  function CategoryServerId(category: Category, servers: seq<Server>): Option<string> {
    if Trim(category.serverId) != "" then Some(Trim(category.serverId)) else DefaultServerId(servers)
  }

  /** The first complaint about a trimmed category, given those already accepted. */
  function CheckCategory(c: Category, position: nat, known: set<string>, names: set<string>, tags: set<string>): Option<ConfigError> {
    if c.name == "" then Some(CategoryField(position, "name"))
    else if c.wantedTag == "" || WordCount(c.wantedTag) != 1 then Some(CategoryField(position, "wanted_tag"))
    else if c.qbCategory == "" then Some(CategoryField(position, "qb_category"))
    else if c.saveDirName == "" then Some(CategoryField(position, "qb_save_dir_name"))
    else if c.serverId !in known then Some(UnknownServer(c.name, c.serverId))
    else if c.downloadDir == "" then Some(CategoryField(position, "download_dir"))
    else if c.linkTargetDir == "" then Some(CategoryField(position, "link_target_dir"))
    else if c.name in names then Some(DuplicateCategory(c.name))
    else if c.wantedTag in tags then Some(DuplicateWantedTag(c.wantedTag))
    else None
  }

  /** One more category, after those already in `out`. */
  function NextCategory(out: seq<Category>, category: Category, position: nat, servers: seq<Server>): Result<seq<Category>, ConfigError> {
    match CategoryServerId(category, servers)
    case None => Err(NoServerForCategory(Trim(category.name)))
    case Some(serverId) =>
      var normalized := TrimCategory(category, serverId);
      match CheckCategory(normalized, position, KnownIds(servers), Names(out), WantedTags(out))
      case Some(e) => Err(e)
      case None => Ok(out + [normalized])
  }

  function NormalizeCategories(categories: seq<Category>, servers: seq<Server>): Result<seq<Category>, ConfigError> {
    if categories == [] then Ok([]) else
    match NormalizeCategories(categories[..|categories| - 1], servers)
    case Err(e) => Err(e)
    case Ok(out) => NextCategory(out, categories[|categories| - 1], |categories|, servers)
  }

  lemma CategoriesStep(categories: seq<Category>, servers: seq<Server>, k: nat, out: seq<Category>)
    requires k < |categories| && NormalizeCategories(categories[..k], servers) == Ok(out)
    ensures NormalizeCategories(categories[..k + 1], servers) == NextCategory(out, categories[k], k + 1, servers)
  {
    assert categories[..k + 1][..k] == categories[..k];
  }

  lemma CategorySetsSnoc(out: seq<Category>, category: Category)
    ensures Names(out + [category]) == Names(out) + {category.name}
    ensures WantedTags(out + [category]) == WantedTags(out) + {category.wantedTag}
  {
  }

  lemma {:induction false} CategoriesFailEarly(categories: seq<Category>, servers: seq<Server>, k: nat)
    requires k <= |categories| && NormalizeCategories(categories[..k], servers).Err?
    ensures NormalizeCategories(categories, servers) == NormalizeCategories(categories[..k], servers)
  {
    if k < |categories| {
      assert categories[..|categories| - 1][..k] == categories[..k];
      CategoriesFailEarly(categories[..|categories| - 1], servers, k);
    } else {
      assert categories[..k] == categories;
    }
  }

  method NormalizeSubscriptionCategories(categories: seq<Category>, servers: seq<Server>)
    returns (r: Result<seq<Category>, ConfigError>)
    ensures r == NormalizeCategories(categories, servers)
  {
    var out: seq<Category> := [];
    var names: set<string> := {};
    var tags: set<string> := {};
    for k := 0 to |categories|
      invariant NormalizeCategories(categories[..k], servers) == Ok(out)
      invariant names == Names(out) && tags == WantedTags(out)
    {
      CategoriesStep(categories, servers, k, out);
      var serverId := CategoryServerId(categories[k], servers);
      if serverId == None {
        CategoriesFailEarly(categories, servers, k + 1);
        return Err(NoServerForCategory(Trim(categories[k].name)));
      }
      var normalized := TrimCategory(categories[k], serverId.value);
      var complaint := CheckCategory(normalized, k + 1, KnownIds(servers), names, tags);
      if complaint.Some? {
        CategoriesFailEarly(categories, servers, k + 1);
        return Err(complaint.value);
      }
      CategorySetsSnoc(out, normalized);
      names := names + {normalized.name};
      tags := tags + {normalized.wantedTag};
      out := out + [normalized];
    }
    assert categories[..|categories|] == categories;
    r := Ok(out);
  }

  /** A category that its own normalisation accepts and does not change. */
  predicate NormalCategory(c: Category, position: nat, servers: seq<Server>, before: seq<Category>) {
    && c.serverId != "" && Trim(c.serverId) == c.serverId
    && TrimCategory(c, c.serverId) == c
    && CheckCategory(c, position, KnownIds(servers), Names(before), WantedTags(before)) == None
  }

  predicate NormalCategories(categories: seq<Category>, servers: seq<Server>) {
    categories != [] ==>
      var init, last := categories[..|categories| - 1], categories[|categories| - 1];
      NormalCategories(init, servers) && NormalCategory(last, |categories|, servers, init)
  }

  lemma TrimmedCategoryIsNormal(c: Category, serverId: string)
    ensures TrimCategory(TrimCategory(c, serverId), serverId) == TrimCategory(c, serverId)
  {
    TrimShape(c.name);
    TrimShape(c.wantedTag);
    TrimShape(c.qbCategory);
    TrimShape(c.saveDirName);
    TrimShape(c.downloadDir);
    TrimShape(c.linkTargetDir);
  }

  lemma {:induction false} CategoriesBecomeNormal(categories: seq<Category>, servers: seq<Server>)
    requires NormalizeCategories(categories, servers).Ok?
    ensures NormalCategories(NormalizeCategories(categories, servers).value, servers)
    ensures |NormalizeCategories(categories, servers).value| == |categories|
  {
    if categories != [] {
      var init, last := categories[..|categories| - 1], categories[|categories| - 1];
      CategoriesBecomeNormal(init, servers);
      var out := NormalizeCategories(init, servers).value;
      var serverId := CategoryServerId(last, servers).value;
      TrimShape(last.serverId);
      if servers != [] {
        TrimShape(servers[0].id);
      }
      TrimmedCategoryIsNormal(last, serverId);
      var all := out + [TrimCategory(last, serverId)];
      assert all[..|all| - 1] == out;
    }
  }

  lemma NormalCategoryStays(c: Category, position: nat, servers: seq<Server>, before: seq<Category>)
    requires NormalCategory(c, position, servers, before)
    ensures CategoryServerId(c, servers) == Some(c.serverId) && TrimCategory(c, c.serverId) == c
    ensures CheckCategory(c, position, KnownIds(servers), Names(before), WantedTags(before)) == None
  {
  }

  lemma {:induction false} NormalCategoriesStay(categories: seq<Category>, servers: seq<Server>)
    requires NormalCategories(categories, servers)
    ensures NormalizeCategories(categories, servers) == Ok(categories)
  {
    if categories != [] {
      var init, last := categories[..|categories| - 1], categories[|categories| - 1];
      assert categories == init + [last];
      NormalCategoriesStay(init, servers);
      NormalCategoryStays(last, |categories|, servers, init);
    }
  }

  // --------------------------------------------------------------------- watcher

  function Clamp(n: nat, low: nat, high: nat): nat
    requires low <= high
  {
    if n < low then low else if n > high then high else n
  }

  function AtLeast(n: nat, low: nat): nat {
    if n < low then low else n
  }

  function NormalizeWatcher(w: Watcher): Watcher {
    w.(pollInterval := Clamp(w.pollInterval, 60, 86_400),
       libraryLimit := Clamp(w.libraryLimit, 1, 1200),
       maxRetries := Clamp(w.maxRetries, 1, 20),
       searchInterval := AtLeast(w.searchInterval, 30),
       progressInterval := AtLeast(w.progressInterval, 1),
       linkRetryInterval := AtLeast(w.linkRetryInterval, 30),
       systemRetryInterval := AtLeast(w.systemRetryInterval, 30))
  }

  // ----------------------------------------------------------------------- rules

  function NormalizeKeywords(values: seq<string>): seq<string> {
    if values == [] then []
    else
      var out, item := NormalizeKeywords(values[..|values| - 1]), Trim(values[|values| - 1]);
      if item != "" && item !in out then out + [item] else out
  }

  method NormalizeKeywordList(values: seq<string>) returns (out: seq<string>)
    ensures out == NormalizeKeywords(values)
  {
    out := [];
    for k := 0 to |values|
      invariant out == NormalizeKeywords(values[..k])
    {
      assert values[..k + 1][..k] == values[..k];
      var item := Trim(values[k]);
      if item != "" && item !in out {
        out := out + [item];
      }
    }
    assert values[..|values|] == values;
  }

  /** Trimmed, non-empty and without repetition. */
  predicate NormalKeywords(values: seq<string>) {
    && (forall i :: 0 <= i < |values| ==> values[i] != "" && Trim(values[i]) == values[i])
    && (forall i, j :: 0 <= i < j < |values| ==> values[i] != values[j])
  }

  /** The keywords that remain are exactly the trimmed, non-empty ones, each once. */
  lemma {:induction false} KeywordsBecomeNormal(values: seq<string>)
    ensures NormalKeywords(NormalizeKeywords(values))
    ensures forall w :: w in NormalizeKeywords(values) <==> w != "" && exists i :: 0 <= i < |values| && Trim(values[i]) == w
  {
    if values != [] {
      KeywordsBecomeNormal(values[..|values| - 1]);
      TrimShape(values[|values| - 1]);
    }
  }

  lemma {:induction false} NormalKeywordsStay(values: seq<string>)
    requires NormalKeywords(values)
    ensures NormalizeKeywords(values) == values
  {
    if values != [] {
      NormalKeywordsStay(values[..|values| - 1]);
      assert values[..|values| - 1] + [values[|values| - 1]] == values;
    }
  }

  /** Whether `a` belongs strictly after `b`: higher priority first, then by name. */
  predicate After(a: Rule, b: Rule) {
    a.priority < b.priority || (a.priority == b.priority && LexGreater(a.name, b.name))
  }

  /** Stable: an equal element goes behind those already there. */
  function InsertRule(rules: seq<Rule>, rule: Rule): seq<Rule> {
    if rules == [] || !After(rules[|rules| - 1], rule) then rules + [rule]
    else InsertRule(rules[..|rules| - 1], rule) + [rules[|rules| - 1]]
  }

  function SortRules(rules: seq<Rule>): seq<Rule> {
    if rules == [] then [] else InsertRule(SortRules(rules[..|rules| - 1]), rules[|rules| - 1])
  }

  predicate Sorted(rules: seq<Rule>) {
    forall i :: 0 < i < |rules| ==> !After(rules[i - 1], rules[i])
  }

  lemma AfterIsAsymmetric(a: Rule, b: Rule)
    requires After(a, b)
    ensures !After(b, a)
  {
    LexAsymmetric(a.name, b.name);
  }

  lemma SortedSnoc(rules: seq<Rule>, rule: Rule)
    requires Sorted(rules) && (rules != [] ==> !After(rules[|rules| - 1], rule))
    ensures Sorted(rules + [rule])
  {
    hide After;
  }

  lemma {:induction false} InsertSorts(rules: seq<Rule>, rule: Rule)
    requires Sorted(rules)
    ensures Sorted(InsertRule(rules, rule))
    ensures multiset(InsertRule(rules, rule)) == multiset(rules) + multiset{rule}
    ensures |InsertRule(rules, rule)| == |rules| + 1
    ensures InsertRule(rules, rule)[|rules|] == rule || (rules != [] && InsertRule(rules, rule)[|rules|] == rules[|rules| - 1])
  {
    hide After;
    if rules == [] || !After(rules[|rules| - 1], rule) {
      SortedSnoc(rules, rule);
    } else {
      var init, last := rules[..|rules| - 1], rules[|rules| - 1];
      InsertSorts(init, rule);
      assert rules == init + [last];
      AfterIsAsymmetric(last, rule);
      SortedSnoc(InsertRule(init, rule), last);
    }
  }

  /** Sorting orders the rules and keeps every one of them. */
  lemma {:induction false} SortSorts(rules: seq<Rule>)
    ensures Sorted(SortRules(rules)) && multiset(SortRules(rules)) == multiset(rules)
  {
    if rules != [] {
      var init, last := rules[..|rules| - 1], rules[|rules| - 1];
      assert rules == init + [last];
      SortSorts(init);
      InsertSorts(SortRules(init), last);
    }
  }

  lemma {:induction false} SortedStays(rules: seq<Rule>)
    requires Sorted(rules)
    ensures SortRules(rules) == rules
  {
    if rules != [] {
      SortedStays(rules[..|rules| - 1]);
      assert |rules| > 1 ==> !After(rules[|rules| - 2], rules[|rules| - 1]);
      assert rules == rules[..|rules| - 1] + [rules[|rules| - 1]];
    }
  }

  function RuleNames(rules: seq<Rule>): set<string> {
    set rule | rule in rules :: rule.name
  }

  function TrimRule(rule: Rule): Rule {
    Rule(Trim(rule.name), rule.priority, rule.mode, NormalizeKeywords(rule.titleKeywords),
         NormalizeKeywords(rule.resolutionKeywords), NormalizeKeywords(rule.sourceKeywords))
  }

  function CheckRule(rule: Rule, position: nat, names: set<string>): Option<ConfigError> {
    if rule.name == "" then Some(RuleWithoutName(position))
    else if rule.name in names then Some(DuplicateRule(rule.name))
    else if rule.titleKeywords == [] && rule.resolutionKeywords == [] && rule.sourceKeywords == [] then
      Some(RuleWithoutKeywords(rule.name))
    else None
  }

  /** One more rule, after those already in `out`. */
  function NextRule(out: seq<Rule>, rule: Rule, position: nat): Result<seq<Rule>, ConfigError> {
    match CheckRule(TrimRule(rule), position, RuleNames(out))
    case Some(e) => Err(e)
    case None => Ok(out + [TrimRule(rule)])
  }

  function CollectRules(rules: seq<Rule>): Result<seq<Rule>, ConfigError> {
    if rules == [] then Ok([]) else
    match CollectRules(rules[..|rules| - 1])
    case Err(e) => Err(e)
    case Ok(out) => NextRule(out, rules[|rules| - 1], |rules|)
  }

  lemma RulesStep(rules: seq<Rule>, k: nat, out: seq<Rule>)
    requires k < |rules| && CollectRules(rules[..k]) == Ok(out)
    ensures CollectRules(rules[..k + 1]) == NextRule(out, rules[k], k + 1)
  {
    assert rules[..k + 1][..k] == rules[..k];
  }

  lemma RuleNamesSnoc(out: seq<Rule>, rule: Rule)
    ensures RuleNames(out + [rule]) == RuleNames(out) + {rule.name}
  {
  }

  function NormalizeRules(rules: seq<Rule>): Result<seq<Rule>, ConfigError> {
    match CollectRules(rules) case Err(e) => Err(e) case Ok(out) => Ok(SortRules(out))
  }

  lemma {:induction false} RulesFailEarly(rules: seq<Rule>, k: nat)
    requires k <= |rules| && CollectRules(rules[..k]).Err?
    ensures CollectRules(rules) == CollectRules(rules[..k])
  {
    if k < |rules| {
      assert rules[..|rules| - 1][..k] == rules[..k];
      RulesFailEarly(rules[..|rules| - 1], k);
    } else {
      assert rules[..k] == rules;
    }
  }

  method NormalizeTorrentMatchRules(rules: seq<Rule>) returns (r: Result<seq<Rule>, ConfigError>)
    ensures r == NormalizeRules(rules)
  {
    var out: seq<Rule> := [];
    var names: set<string> := {};
    for k := 0 to |rules|
      invariant CollectRules(rules[..k]) == Ok(out) && names == RuleNames(out)
    {
      RulesStep(rules, k, out);
      var rule := rules[k];
      var title := NormalizeKeywordList(rule.titleKeywords);
      var resolution := NormalizeKeywordList(rule.resolutionKeywords);
      var source := NormalizeKeywordList(rule.sourceKeywords);
      var normalized := Rule(Trim(rule.name), rule.priority, rule.mode, title, resolution, source);
      var complaint := CheckRule(normalized, k + 1, names);
      if complaint.Some? {
        RulesFailEarly(rules, k + 1);
        return Err(complaint.value);
      }
      RuleNamesSnoc(out, normalized);
      names := names + {normalized.name};
      out := out + [normalized];
    }
    assert rules[..|rules|] == rules;
    r := Ok(SortRules(out));
  }

  predicate NormalRule(rule: Rule) {
    TrimRule(rule) == rule && CheckRule(rule, 0, {}) == None
  }

  predicate NormalRules(rules: seq<Rule>) {
    && (forall rule :: rule in rules ==> NormalRule(rule))
    && (forall i, j :: 0 <= i < j < |rules| ==> rules[i].name != rules[j].name)
  }

  lemma TrimmedRuleIsNormal(rule: Rule)
    ensures TrimRule(TrimRule(rule)) == TrimRule(rule)
  {
    TrimShape(rule.name);
    KeywordsBecomeNormal(rule.titleKeywords);
    KeywordsBecomeNormal(rule.resolutionKeywords);
    KeywordsBecomeNormal(rule.sourceKeywords);
    NormalKeywordsStay(NormalizeKeywords(rule.titleKeywords));
    NormalKeywordsStay(NormalizeKeywords(rule.resolutionKeywords));
    NormalKeywordsStay(NormalizeKeywords(rule.sourceKeywords));
  }

  lemma {:induction false} RulesBecomeNormal(rules: seq<Rule>)
    requires CollectRules(rules).Ok?
    ensures NormalRules(CollectRules(rules).value)
  {
    if rules != [] {
      var init, last := rules[..|rules| - 1], rules[|rules| - 1];
      RulesBecomeNormal(init);
      TrimmedRuleIsNormal(last);
      var out := CollectRules(init).value;
      assert forall i :: 0 <= i < |out| ==> out[i] in out && out[i].name in RuleNames(out);
    }
  }

  lemma NormalRuleStays(out: seq<Rule>, rule: Rule, position: nat)
    requires NormalRules(out + [rule])
    ensures NextRule(out, rule, position) == Ok(out + [rule])
  {
    var all := out + [rule];
    assert all[|out|] == rule && rule in all;
    assert forall i :: 0 <= i < |out| ==> all[i] == out[i];
    assert rule.name !in RuleNames(out);
  }

  lemma {:induction false} NormalRulesStay(rules: seq<Rule>)
    requires NormalRules(rules)
    ensures CollectRules(rules) == Ok(rules)
  {
    if rules != [] {
      var init, last := rules[..|rules| - 1], rules[|rules| - 1];
      assert rules == init + [last];
      assert forall rule :: rule in init ==> rule in rules;
      NormalRulesStay(init);
      NormalRuleStays(init, last, |rules|);
    }
  }

  /** Distinct names survive any rearrangement. */
  lemma RearrangedRulesStayNormal(rules: seq<Rule>, sorted: seq<Rule>)
    requires NormalRules(rules) && multiset(sorted) == multiset(rules)
    ensures NormalRules(sorted)
  {
    forall rule | rule in sorted ensures rule in rules {
      assert rule in multiset(sorted);
    }
    forall i, j | 0 <= i < j < |sorted| ensures sorted[i].name != sorted[j].name {
      if sorted[i].name == sorted[j].name {
        SameNameSameRule(rules, sorted[i], sorted[j]);
        TwoOccurrences(sorted, i, j);
        AtMostOneOccurrence(rules, sorted[i]);
      }
    }
  }

  lemma SameNameSameRule(rules: seq<Rule>, a: Rule, b: Rule)
    requires NormalRules(rules) && a in rules && b in rules && a.name == b.name
    ensures a == b
  {
  }

  lemma TwoOccurrences(rules: seq<Rule>, i: nat, j: nat)
    requires i < j < |rules| && rules[i] == rules[j]
    ensures multiset(rules)[rules[i]] >= 2
  {
    assert rules == rules[..j] + [rules[j]] + rules[j + 1..];
    assert rules[..j][i] in multiset(rules[..j]);
  }

  lemma {:induction false} AtMostOneOccurrence(rules: seq<Rule>, rule: Rule)
    requires NormalRules(rules)
    ensures multiset(rules)[rule] <= 1
  {
    if rules != [] {
      var init, last := rules[..|rules| - 1], rules[|rules| - 1];
      assert rules == init + [last];
      AtMostOneOccurrence(init, rule);
      if last == rule {
        assert forall k :: 0 <= k < |init| ==> init[k].name != last.name;
        assert rule !in init;
      }
    }
  }

  // --------------------------------------------------------- whole configurations

  const DEFAULT_LISTEN_IP := "127.0.0.1"

  function ListenIp(cfg: FileConfig): string {
    if Trim(cfg.listenIp) == "" then DEFAULT_LISTEN_IP else Trim(cfg.listenIp)
  }

  function CheckOrigins(origins: seq<string>, env: Env): Option<ConfigError> {
    if origins == [] then None
    else if !env.originOk(origins[0]) then Some(BadOrigin(origins[0]))
    else CheckOrigins(origins[1..], env)
  }

  function CheckManagement(management: Management, env: Env): Option<ConfigError> {
    var token := Trim(management.adminToken);
    if token != "" && |token| < 24 then Some(ShortAdminToken) else CheckOrigins(management.allowedOrigins, env)
  }

  function Validate(cfg: FileConfig, env: Env): Option<ConfigError> {
    match env.parseIp(ListenIp(cfg))
    case None => Some(BadListenIp)
    case Some(loopback) =>
      match CheckManagement(cfg.management, env)
      case Some(e) => Some(e)
      case None => if !loopback && Trim(cfg.management.adminToken) == "" then Some(AdminTokenRequired) else None
  }

  function NormalizeConfig(cfg: FileConfig, env: Env): Result<FileConfig, ConfigError> {
    match NormalizeServers(cfg.servers, env)
    case Err(e) => Err(e)
    case Ok(servers) =>
      match NormalizeCategories(cfg.categories, servers)
      case Err(e) => Err(e)
      case Ok(categories) =>
        match NormalizeRules(cfg.rules)
        case Err(e) => Err(e)
        case Ok(rules) =>
          var next := cfg.(servers := servers, categories := categories, watcher := NormalizeWatcher(cfg.watcher), rules := rules);
          match Validate(next, env)
          case Some(e) => Err(e)
          case None => Ok(next)
  }

  /** Everything about a configuration that normalising establishes. */
  ghost predicate NormalConfig(cfg: FileConfig, env: Env) {
    && NormalServers(cfg.servers, env)
    && NormalCategories(cfg.categories, cfg.servers)
    && NormalizeWatcher(cfg.watcher) == cfg.watcher
    && NormalRules(cfg.rules) && Sorted(cfg.rules)
    && Validate(cfg, env) == None
  }

  lemma NormalizedIsNormal(cfg: FileConfig, env: Env)
    requires NormalizeConfig(cfg, env).Ok?
    ensures NormalConfig(NormalizeConfig(cfg, env).value, env)
  {
    var next := NormalizeConfig(cfg, env).value;
    var collected := CollectRules(cfg.rules).value;
    ServersBecomeNormal(cfg.servers, env);
    CategoriesBecomeNormal(cfg.categories, next.servers);
    RulesBecomeNormal(cfg.rules);
    SortSorts(collected);
    RearrangedRulesStayNormal(collected, next.rules);
  }

  lemma NormalStays(cfg: FileConfig, env: Env)
    requires NormalConfig(cfg, env)
    ensures NormalizeConfig(cfg, env) == Ok(cfg)
  {
    NormalServersStay(cfg.servers, env);
    NormalCategoriesStay(cfg.categories, cfg.servers);
    NormalRulesStay(cfg.rules);
    SortedStays(cfg.rules);
  }

  /** A configuration is left exactly as it is if and only if it is normal. */
  lemma UnchangedIffNormal(cfg: FileConfig, env: Env)
    ensures NormalizeConfig(cfg, env) == Ok(cfg) <==> NormalConfig(cfg, env)
  {
    if NormalizeConfig(cfg, env) == Ok(cfg) {
      NormalizedIsNormal(cfg, env);
    }
    if NormalConfig(cfg, env) {
      NormalStays(cfg, env);
    }
  }

  /** Normalising twice is normalising once. */
  lemma NormalizeIdempotent(cfg: FileConfig, env: Env)
    requires NormalizeConfig(cfg, env).Ok?
    ensures var next := NormalizeConfig(cfg, env).value;
      NormalizeConfig(next, env) == Ok(next) && DistinctIds(next.servers)
  {
    NormalizedIsNormal(cfg, env);
    NormalStays(NormalizeConfig(cfg, env).value, env);
  }

  // ------------------------------------------------------------ loading from disk

  /** The configuration file; parsing is taken to invert serialising. */
  datatype Content = Missing | Malformed | Parsed(cfg: FileConfig)

  datatype LoadError = MalformedFile | Invalid(error: ConfigError) | WriteFailed | BackupFailed

  function DefaultConfig(): FileConfig {
    FileConfig(DEFAULT_LISTEN_IP, 8787, "", "", "", [], [],
               Watcher(false, true, 3600, 200, 3, 1800, 5, 900, 600, true), [], Management("", [], false))
  }

  class ConfigFile {
    var content: Content
    /** What the timestamped backups hold, oldest first. */
    var backups: seq<Content>

    constructor (content: Content)
      ensures this.content == content && backups == []
    {
      this.content := content;
      backups := [];
    }

    method LoadOrCreate(env: Env, writeFails: bool) returns (r: Result<FileConfig, LoadError>)
      modifies this`content
      ensures content == if old(content) == Missing && r.Ok? then Parsed(DefaultConfig()) else old(content)
      ensures r == match old(content)
                   case Malformed => Err(MalformedFile)
                   case Parsed(cfg) => (match Validate(cfg, env) case Some(e) => Err(Invalid(e)) case None => Ok(cfg))
                   case Missing =>
                     (match Validate(DefaultConfig(), env)
                      case Some(e) => Err(Invalid(e))
                      case None => if writeFails then Err(WriteFailed) else Ok(DefaultConfig()))
    {
      match content {
        case Malformed => r := Err(MalformedFile);
        case Parsed(cfg) =>
          var invalid := Validate(cfg, env);
          r := if invalid.Some? then Err(Invalid(invalid.value)) else Ok(cfg);
        case Missing =>
          var invalid := Validate(DefaultConfig(), env);
          if invalid.Some? {
            return Err(Invalid(invalid.value));
          }
          if writeFails {
            return Err(WriteFailed);
          }
          content := Parsed(DefaultConfig());
          r := Ok(DefaultConfig());
      }
    }

    /** A changed configuration is only written once the file it replaces has been backed up. */
    method LoadNormalized(env: Env, writeFails: bool, backupFails: bool) returns (r: Result<FileConfig, LoadError>)
      modifies this
      ensures r.Ok? ==> content == Parsed(r.value) && NormalConfig(r.value, env)
      ensures r.Ok? && old(content).Parsed? ==> NormalizeConfig(old(content).cfg, env) == Ok(r.value)
      ensures backups != old(backups) ==> content != old(content) || r == Err(WriteFailed)
      ensures old(backups) <= backups && |backups| <= |old(backups)| + 1
      ensures r.Err? && old(content) != Missing ==> content == old(content)
      ensures content != old(content) && old(content) != Missing ==> backups == old(backups) + [old(content)]
      ensures old(content).Parsed? && NormalConfig(old(content).cfg, env) ==>
        r == Ok(old(content).cfg) && content == old(content) && backups == old(backups)
    {
      var loaded := LoadOrCreate(env, writeFails);
      if loaded.Err? {
        return Err(loaded.error);
      }
      UnchangedIffNormal(loaded.value, env);
      var normalized := NormalizeConfig(loaded.value, env);
      if normalized.Err? {
        return Err(Invalid(normalized.error));
      }
      NormalizedIsNormal(loaded.value, env);
      if normalized.value != loaded.value {
        if backupFails {
          return Err(BackupFailed);
        }
        backups := backups + [content];
        if writeFails {
          return Err(WriteFailed);
        }
        content := Parsed(normalized.value);
      }
      r := Ok(normalized.value);
    }
  }

  /** Starting up a second time changes neither the file nor the backups, whatever would fail. */
  method LoadTwice(file: ConfigFile, env: Env, writeFails: bool, backupFails: bool, writeFails': bool, backupFails': bool)
    returns (first: Result<FileConfig, LoadError>, second: Result<FileConfig, LoadError>, ghost between: seq<Content>)
    modifies file
    ensures first.Ok? ==> second == first && file.content == Parsed(first.value) && file.backups == between
  {
    first := file.LoadNormalized(env, writeFails, backupFails);
    between := file.backups;
    second := file.LoadNormalized(env, writeFails', backupFails');
  }
}
