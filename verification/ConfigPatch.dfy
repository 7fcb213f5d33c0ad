/**
 What the configuration API shows and accepts: a response without secrets, and patches in which a
 secret is kept, set or cleared explicitly. Sending back what was shown changes nothing.
 */
module ConfigPatch {
  import opened Wrappers
  import opened Text
  import opened ConfigNormalize
  import opened NormalForm
  import Store = ConfigStore

  datatype RedactedServer = RedactedServer(
    id: string, name: string, baseUrl: string, username: string, insecureTls: bool, hasPassword: bool)

  datatype Response = Response(
    revision: nat, listenIp: string, listenPort: nat,
    hasTmdbApiKey: bool, hasMteamApiKey: bool, hasDoubanCookie: bool, hasAdminToken: bool,
    servers: seq<RedactedServer>, categories: seq<Category>, watcher: Watcher, rules: seq<Rule>,
    allowedOrigins: seq<string>, secureCookie: bool, restartRequired: bool)

  function Redact(server: Server): RedactedServer {
    RedactedServer(server.id, server.name, server.baseUrl, server.username, server.insecureTls, server.password != "")
  }

  function RedactAll(servers: seq<Server>): (r: seq<RedactedServer>)
    ensures |r| == |servers| && forall i :: 0 <= i < |r| ==> r[i] == Redact(servers[i])
  {
    seq(|servers|, i requires 0 <= i < |servers| => Redact(servers[i]))
  }

  function ConfigResponse(revision: nat, cfg: FileConfig, restartRequired: bool): Response {
    Response(revision, cfg.listenIp, cfg.listenPort,
             Trim(cfg.tmdbApiKey) != "", Trim(cfg.mteamApiKey) != "", Trim(cfg.doubanCookie) != "",
             Trim(cfg.management.adminToken) != "",
             RedactAll(cfg.servers), cfg.categories, cfg.watcher, cfg.rules,
             cfg.management.allowedOrigins, cfg.management.secureCookie, restartRequired)
  }

  datatype PatchError =
    | SetAndClear
    | EmptySecret
    | EmptyAfterNormalizing
    | Config(error: ConfigError)
    | ConfirmationRequired

  datatype SecretPatch = Keep | Set(value: string) | Clear

  function FromFields(value: Option<string>, clear: bool): Result<SecretPatch, PatchError> {
    match value
    case Some(v) => if clear then Err(SetAndClear) else if Trim(v) == "" then Err(EmptySecret) else Ok(Set(v))
    case None => Ok(if clear then Clear else Keep)
  }

  function MergeSecret(current: string, patch: SecretPatch, normalize: string -> string): Result<string, PatchError> {
    match patch
    case Keep => Ok(current)
    case Clear => Ok("")
    case Set(v) => if Trim(normalize(v)) == "" then Err(EmptyAfterNormalizing) else Ok(normalize(v))
  }

  /** The two fields of one secret, applied to its current value. */
  function MergeFields(current: string, value: Option<string>, clear: bool, normalize: string -> string): Result<string, PatchError> {
    match FromFields(value, clear) case Err(e) => Err(e) case Ok(patch) => MergeSecret(current, patch, normalize)
  }

  // ------------------------------------------------------------ server passwords

  datatype ServerPatch = ServerPatch(
    id: string, name: string, baseUrl: string, username: string, insecureTls: bool,
    password: Option<string>, clearPassword: bool)

  /** The password of the first server with this id, if there is one. */
  function PasswordOf(servers: seq<Server>, id: string): string {
    if servers == [] then ""
    else if servers[0].id == id then servers[0].password
    else PasswordOf(servers[1..], id)
  }

  function Blank(patch: ServerPatch): Server {
    Server(patch.id, patch.name, patch.baseUrl, patch.username, "", patch.insecureTls)
  }

  function BlankAll(patches: seq<ServerPatch>): (r: seq<Server>)
    ensures |r| == |patches| && forall i :: 0 <= i < |r| ==> r[i] == Blank(patches[i])
  {
    seq(|patches|, i requires 0 <= i < |patches| => Blank(patches[i]))
  }

  /** The first patch whose password fields contradict themselves decides the error. */
  function PasswordError(patches: seq<ServerPatch>): Option<PatchError> {
    if patches == [] then None
    else
      match PasswordError(patches[..|patches| - 1])
      case Some(e) => Some(e)
      case None =>
        match FromFields(patches[|patches| - 1].password, patches[|patches| - 1].clearPassword)
        case Err(e) => Some(e)
        case Ok(_) => None
  }

  /** The password a server ends up with: kept by its final id, or as the patch in its place says. */
  function NewPassword(current: seq<Server>, id: string, patch: ServerPatch): string {
    if patch.clearPassword then ""
    else match patch.password case Some(v) => v case None => PasswordOf(current, id)
  }

  function WithPasswords(current: seq<Server>, servers: seq<Server>, patches: seq<ServerPatch>): (r: seq<Server>)
    requires |servers| == |patches|
    ensures |r| == |servers|
    ensures forall i :: 0 <= i < |r| ==> r[i] == servers[i].(password := NewPassword(current, servers[i].id, patches[i]))
  {
    seq(|servers|, i requires 0 <= i < |servers| => servers[i].(password := NewPassword(current, servers[i].id, patches[i])))
  }

  function MergeServers(current: seq<Server>, patches: seq<ServerPatch>, env: Env): Result<seq<Server>, PatchError> {
    match PasswordError(patches)
    case Some(e) => Err(e)
    case None =>
      match NormalizeServers(BlankAll(patches), env)
      case Err(e) => Err(Config(e))
      case Ok(servers) => Ok(WithPasswords(current, servers, patches))
  }

  lemma {:induction false} PasswordErrorEarly(patches: seq<ServerPatch>, k: nat)
    requires k <= |patches| && PasswordError(patches[..k]).Some?
    ensures PasswordError(patches) == PasswordError(patches[..k])
  {
    if k < |patches| {
      assert patches[..|patches| - 1][..k] == patches[..k];
      PasswordErrorEarly(patches[..|patches| - 1], k);
    } else {
      assert patches[..k] == patches;
    }
  }

  lemma PasswordStep(patches: seq<ServerPatch>, k: nat)
    requires k < |patches| && PasswordError(patches[..k]) == None
    ensures PasswordError(patches[..k + 1]) ==
      match FromFields(patches[k].password, patches[k].clearPassword) case Err(e) => Some(e) case Ok(_) => None
  {
    assert patches[..k + 1][..k] == patches[..k];
  }

  /** What a server patch means for its password, once its fields agree. */
  lemma MergedPassword(current: seq<Server>, id: string, patch: ServerPatch, parsed: SecretPatch)
    requires FromFields(patch.password, patch.clearPassword) == Ok(parsed)
    ensures MergeSecret(PasswordOf(current, id), parsed, (s: string) => s) == Ok(NewPassword(current, id, patch))
  {
  }

  method FindPassword(current: seq<Server>, id: string) returns (password: string)
    ensures password == PasswordOf(current, id)
  {
    for k := 0 to |current|
      invariant PasswordOf(current, id) == PasswordOf(current[k..], id)
    {
      if current[k].id == id {
        return current[k].password;
      }
      assert current[k..][1..] == current[k + 1..];
    }
    password := "";
  }

  /** The secret patch of every server, or the first contradiction. */
  method ParsePasswords(patches: seq<ServerPatch>) returns (r: Result<seq<SecretPatch>, PatchError>)
    ensures PasswordError(patches) == if r.Err? then Some(r.error) else None
    ensures r.Ok? ==> |r.value| == |patches|
    ensures r.Ok? ==> forall i :: 0 <= i < |patches| ==> FromFields(patches[i].password, patches[i].clearPassword) == Ok(r.value[i])
  {
    assert PasswordError(patches[..0]) == None;
    hide PasswordError, FromFields;
    var secrets: seq<SecretPatch> := [];
    for k := 0 to |patches|
      invariant |secrets| == k && PasswordError(patches[..k]) == None
      invariant forall i :: 0 <= i < k ==> FromFields(patches[i].password, patches[i].clearPassword) == Ok(secrets[i])
    {
      PasswordStep(patches, k);
      var secret := FromFields(patches[k].password, patches[k].clearPassword);
      if secret.Err? {
        PasswordErrorEarly(patches, k + 1);
        return Err(secret.error);
      }
      secrets := secrets + [secret.value];
    }
    assert patches[..|patches|] == patches;
    r := Ok(secrets);
  }

  method MergePasswords(current: seq<Server>, ids: seq<Server>, patches: seq<ServerPatch>, secrets: seq<SecretPatch>)
    returns (servers: seq<Server>)
    requires |ids| == |patches| == |secrets|
    requires forall i :: 0 <= i < |patches| ==> FromFields(patches[i].password, patches[i].clearPassword) == Ok(secrets[i])
    ensures servers == WithPasswords(current, ids, patches)
  {
    hide PasswordOf, NewPassword, MergeSecret, FromFields;
    servers := ids;
    for k := 0 to |servers|
      invariant |servers| == |ids|
      invariant forall i :: 0 <= i < k ==> servers[i] == ids[i].(password := NewPassword(current, ids[i].id, patches[i]))
      invariant forall i :: k <= i < |servers| ==> servers[i] == ids[i]
    {
      var existing := FindPassword(current, servers[k].id);
      MergedPassword(current, servers[k].id, patches[k], secrets[k]);
      var merged := MergeSecret(existing, secrets[k], (s: string) => s);
      servers := servers[k := servers[k].(password := merged.value)];
    }
  }

  method MergeQbServerPatches(current: seq<Server>, patches: seq<ServerPatch>, env: Env)
    returns (r: Result<seq<Server>, PatchError>)
    ensures r == MergeServers(current, patches, env)
  {
    hide PasswordError, FromFields, NormalizeServers;
    var secrets := ParsePasswords(patches);
    if secrets.Err? {
      return Err(secrets.error);
    }
    var normalized := NormalizeQbServers(BlankAll(patches), env);
    if normalized.Err? {
      return Err(Config(normalized.error));
    }
    var servers := MergePasswords(current, normalized.value, patches, secrets.value);
    r := Ok(servers);
  }

  // --------------------------------------------------------------- whole patches

  datatype Patch = Patch(
    listenIp: Option<string>, listenPort: Option<nat>,
    tmdbApiKey: Option<string>, clearTmdbApiKey: bool,
    mteamApiKey: Option<string>, clearMteamApiKey: bool,
    doubanCookie: Option<string>, clearDoubanCookie: bool,
    adminToken: Option<string>, clearAdminToken: bool,
    servers: Option<seq<ServerPatch>>, categories: Option<seq<Category>>, watcher: Option<Watcher>,
    rules: Option<seq<Rule>>, allowedOrigins: Option<seq<string>>, secureCookie: Option<bool>)

  function Or<T>(value: Option<T>, current: T): T {
    match value case None => current case Some(v) => v
  }

  /** The four secrets outside the servers. */
  datatype Secrets = Secrets(tmdb: string, mteam: string, cookie: string, token: string)

  function MergeSecrets(current: FileConfig, patch: Patch, normalizeCookie: string -> string): Result<Secrets, PatchError> {
    var same := (s: string) => s;
    match MergeFields(current.tmdbApiKey, patch.tmdbApiKey, patch.clearTmdbApiKey, same)
    case Err(e) => Err(e)
    case Ok(tmdb) =>
      match MergeFields(current.mteamApiKey, patch.mteamApiKey, patch.clearMteamApiKey, same)
      case Err(e) => Err(e)
      case Ok(mteam) =>
        match MergeFields(current.doubanCookie, patch.doubanCookie, patch.clearDoubanCookie, normalizeCookie)
        case Err(e) => Err(e)
        case Ok(cookie) =>
          match MergeFields(current.management.adminToken, patch.adminToken, patch.clearAdminToken, same)
          case Err(e) => Err(e)
          case Ok(token) => Ok(Secrets(tmdb, mteam, cookie, token))
  }

  function PatchServers(current: seq<Server>, patches: Option<seq<ServerPatch>>, env: Env): Result<seq<Server>, PatchError> {
    match patches case None => Ok(current) case Some(ps) => MergeServers(current, ps, env)
  }

  /** Everything but normalisation. */
  function ApplyPatch(current: FileConfig, patch: Patch, env: Env, normalizeCookie: string -> string): Result<FileConfig, PatchError> {
    match MergeSecrets(current, patch, normalizeCookie)
    case Err(e) => Err(e)
    case Ok(secrets) =>
      match PatchServers(current.servers, patch.servers, env)
      case Err(e) => Err(e)
      case Ok(servers) => Ok(Assemble(current, patch, secrets, servers))
  }

  function Assemble(current: FileConfig, patch: Patch, secrets: Secrets, servers: seq<Server>): FileConfig {
    FileConfig(Or(patch.listenIp, current.listenIp), Or(patch.listenPort, current.listenPort),
               secrets.tmdb, secrets.mteam, secrets.cookie, servers, Or(patch.categories, current.categories),
               Or(patch.watcher, current.watcher), Or(patch.rules, current.rules),
               Management(secrets.token, Or(patch.allowedOrigins, current.management.allowedOrigins),
                          Or(patch.secureCookie, current.management.secureCookie)))
  }

  function MergePatch(current: FileConfig, patch: Patch, env: Env, normalizeCookie: string -> string): Result<FileConfig, PatchError> {
    match ApplyPatch(current, patch, env, normalizeCookie)
    case Err(e) => Err(e)
    case Ok(next) => match NormalizeConfig(next, env) case Err(e) => Err(Config(e)) case Ok(cfg) => Ok(cfg)
  }

  method MergeConfigSecrets(current: FileConfig, patch: Patch, normalizeCookie: string -> string)
    returns (r: Result<Secrets, PatchError>)
    ensures r == MergeSecrets(current, patch, normalizeCookie)
  {
    var tmdb := MergeFields(current.tmdbApiKey, patch.tmdbApiKey, patch.clearTmdbApiKey, (s: string) => s);
    if tmdb.Err? {
      return Err(tmdb.error);
    }
    var mteam := MergeFields(current.mteamApiKey, patch.mteamApiKey, patch.clearMteamApiKey, (s: string) => s);
    if mteam.Err? {
      return Err(mteam.error);
    }
    var cookie := MergeFields(current.doubanCookie, patch.doubanCookie, patch.clearDoubanCookie, normalizeCookie);
    if cookie.Err? {
      return Err(cookie.error);
    }
    var token := MergeFields(current.management.adminToken, patch.adminToken, patch.clearAdminToken, (s: string) => s);
    if token.Err? {
      return Err(token.error);
    }
    r := Ok(Secrets(tmdb.value, mteam.value, cookie.value, token.value));
  }

  method MergeConfigPatch(current: FileConfig, patch: Patch, env: Env, normalizeCookie: string -> string)
    returns (r: Result<FileConfig, PatchError>)
    ensures r == MergePatch(current, patch, env, normalizeCookie)
  {
    var next := current;
    next := next.(listenIp := Or(patch.listenIp, next.listenIp));
    next := next.(listenPort := Or(patch.listenPort, next.listenPort));
    var merged := MergeConfigSecrets(current, patch, normalizeCookie);
    if merged.Err? {
      return Err(merged.error);
    }
    var secrets := merged.value;
    next := next.(tmdbApiKey := secrets.tmdb, mteamApiKey := secrets.mteam, doubanCookie := secrets.cookie);
    next := next.(management := next.management.(adminToken := secrets.token));
    if patch.servers.Some? {
      var servers := MergeQbServerPatches(current.servers, patch.servers.value, env);
      if servers.Err? {
        return Err(servers.error);
      }
      next := next.(servers := servers.value);
    }
    next := next.(categories := Or(patch.categories, next.categories));
    next := next.(watcher := Or(patch.watcher, next.watcher));
    next := next.(rules := Or(patch.rules, next.rules));
    next := next.(management := next.management.(allowedOrigins := Or(patch.allowedOrigins, next.management.allowedOrigins)));
    next := next.(management := next.management.(secureCookie := Or(patch.secureCookie, next.management.secureCookie)));
    assert next == Assemble(current, patch, secrets, next.servers);
    var normalized := NormalizeConfig(next, env);
    r := if normalized.Err? then Err(Config(normalized.error)) else Ok(normalized.value);
  }

  // -------------------------------------------------------------------- the echo

  /** The patch that sends a server back as it was shown. */
  function EchoServer(shown: RedactedServer): ServerPatch {
    ServerPatch(shown.id, shown.name, shown.baseUrl, shown.username, shown.insecureTls, None, false)
  }

  function EchoServers(shown: seq<RedactedServer>): (r: seq<ServerPatch>)
    ensures |r| == |shown| && forall i :: 0 <= i < |r| ==> r[i] == EchoServer(shown[i])
  {
    seq(|shown|, i requires 0 <= i < |shown| => EchoServer(shown[i]))
  }

  /** The patch that sends back every non-secret field of a response, and no secret. */
  function Echo(shown: Response): Patch {
    Patch(Some(shown.listenIp), Some(shown.listenPort), None, false, None, false, None, false, None, false,
          Some(EchoServers(shown.servers)), Some(shown.categories), Some(shown.watcher), Some(shown.rules),
          Some(shown.allowedOrigins), Some(shown.secureCookie))
  }

  lemma {:induction false} PasswordOfDistinct(servers: seq<Server>, i: nat)
    requires DistinctIds(servers) && i < |servers|
    ensures PasswordOf(servers, servers[i].id) == servers[i].password
  {
    if i > 0 {
      PasswordOfDistinct(servers[1..], i - 1);
    }
  }

  lemma {:induction false} KeepsRaiseNoError(patches: seq<ServerPatch>)
    requires forall i :: 0 <= i < |patches| ==> patches[i].password == None && !patches[i].clearPassword
    ensures PasswordError(patches) == None
  {
    if patches != [] {
      KeepsRaiseNoError(patches[..|patches| - 1]);
    }
  }

  /** `picked` are servers of `current`, each at most once, in any order. */
  predicate Picks(current: seq<Server>, picked: seq<Server>) {
    && (forall i :: 0 <= i < |picked| ==> picked[i] in current)
    && DistinctIds(picked)
  }

  /** An echoed server loses only its password, which its id finds again. */
  lemma EchoedServer(current: seq<Server>, server: Server, env: Env)
    requires NormalServers(current, env) && server in current
    ensures Blank(EchoServer(Redact(server))) == server.(password := "")
    ensures NormalServer(server.(password := ""), env)
    ensures NewPassword(current, server.id, EchoServer(Redact(server))) == server.password
  {
    var k :| 0 <= k < |current| && current[k] == server;
    PasswordOfDistinct(current, k);
  }

  /** Echoed servers are normal, so normalising leaves their ids alone. */
  lemma EchoedServersStay(current: seq<Server>, picked: seq<Server>, env: Env)
    requires NormalServers(current, env) && Picks(current, picked)
    ensures var blank := BlankAll(EchoServers(RedactAll(picked)));
      && NormalizeServers(blank, env) == Ok(blank)
      && forall i :: 0 <= i < |blank| ==> blank[i] == picked[i].(password := "")
  {
    var blank := BlankAll(EchoServers(RedactAll(picked)));
    forall i | 0 <= i < |picked| ensures NormalServer(blank[i], env) && blank[i] == picked[i].(password := "") {
      EchoedServer(current, picked[i], env);
    }
    NormalServersStay(blank, env);
  }

  lemma EchoedPasswords(current: seq<Server>, picked: seq<Server>, env: Env)
    requires NormalServers(current, env) && Picks(current, picked)
    ensures WithPasswords(current, BlankAll(EchoServers(RedactAll(picked))), EchoServers(RedactAll(picked))) == picked
  {
    hide NormalServers, NewPassword, Blank;
    var patches := EchoServers(RedactAll(picked));
    var merged := WithPasswords(current, BlankAll(patches), patches);
    forall i | 0 <= i < |picked| ensures merged[i] == picked[i] {
      EchoedServer(current, picked[i], env);
    }
  }

  /** However shown servers are reordered or dropped, each one that stays keeps its own password. */
  lemma PickedServersKeepPasswords(current: seq<Server>, picked: seq<Server>, env: Env)
    requires NormalServers(current, env) && Picks(current, picked)
    ensures MergeServers(current, EchoServers(RedactAll(picked)), env) == Ok(picked)
  {
    hide NormalServers, Picks, NormalizeServers, NewPassword, Blank, PasswordError;
    KeepsRaiseNoError(EchoServers(RedactAll(picked)));
    EchoedServersStay(current, picked, env);
    EchoedPasswords(current, picked, env);
  }

  /** Sending back what a normal configuration shows gives that very configuration, secrets included. */
  lemma EchoIsIdentity(cfg: FileConfig, revision: nat, restartRequired: bool, env: Env, normalizeCookie: string -> string)
    requires NormalConfig(cfg, env)
    ensures MergePatch(cfg, Echo(ConfigResponse(revision, cfg, restartRequired)), env, normalizeCookie) == Ok(cfg)
  {
    PickedServersKeepPasswords(cfg.servers, cfg.servers, env);
    NormalStays(cfg, env);
  }

  // ------------------------------------------------------ the update behind PUT

  /** Enabling the automation needs an explicit confirmation. */
  function RequireConfirmation(current: FileConfig, requested: FileConfig, confirmed: bool): Option<PatchError> {
    if !current.watcher.enabled && requested.watcher.enabled && !confirmed then Some(ConfirmationRequired) else None
  }

  function PutConfig(cfg: FileConfig, patch: Patch, confirmed: bool, env: Env, normalizeCookie: string -> string): Result<FileConfig, PatchError> {
    match MergePatch(cfg, patch, env, normalizeCookie)
    case Err(e) => Err(e)
    case Ok(requested) =>
      match RequireConfirmation(cfg, requested, confirmed)
      case Some(e) => Err(e)
      case None => Ok(requested)
  }

  function Explained(r: Result<FileConfig, PatchError>, explain: PatchError -> string): Result<FileConfig, string> {
    match r case Err(e) => Err(explain(e)) case Ok(cfg) => Ok(cfg)
  }

  function PutMutation(patch: Patch, confirmed: bool, env: Env, normalizeCookie: string -> string, explain: PatchError -> string)
    : FileConfig -> Result<FileConfig, string>
  {
    (cfg: FileConfig) => Explained(PutConfig(cfg, patch, confirmed, env, normalizeCookie), explain)
  }

  function ValidateText(env: Env, explain: PatchError -> string): FileConfig -> Option<string> {
    (cfg: FileConfig) => match Validate(cfg, env) case None => None case Some(e) => Some(explain(Config(e)))
  }

  lemma NoChangeWhen(request: Store.Request<FileConfig>, snapshot: Store.Snapshot<FileConfig>)
    requires request.expected == Some(snapshot.revision)
    requires request.mutate(snapshot.value) == Ok(snapshot.value) && request.validate(snapshot.value) == None
    ensures Store.Prepare(request, snapshot) == Store.NoChange
  {
  }

  lemma EchoMutates(cfg: FileConfig, patch: Patch, confirmed: bool, env: Env, normalizeCookie: string -> string, explain: PatchError -> string)
    requires MergePatch(cfg, patch, env, normalizeCookie) == Ok(cfg)
    ensures PutMutation(patch, confirmed, env, normalizeCookie, explain)(cfg) == Ok(cfg)
  {
    assert PutConfig(cfg, patch, confirmed, env, normalizeCookie) == Ok(cfg);
  }

  /** Such an update is recognised as changing nothing: no write, and the revision stays. */
  lemma EchoUpdateIsNoOp(
    snapshot: Store.Snapshot<FileConfig>, restartRequired: bool, confirmed: bool, env: Env,
    normalizeCookie: string -> string, explain: PatchError -> string)
    requires NormalConfig(snapshot.value, env)
    ensures var patch := Echo(ConfigResponse(snapshot.revision, snapshot.value, restartRequired));
      Store.Prepare(
        Store.Request(Some(snapshot.revision), PutMutation(patch, confirmed, env, normalizeCookie, explain), ValidateText(env, explain)),
        snapshot) == Store.NoChange
  {
    var patch := Echo(ConfigResponse(snapshot.revision, snapshot.value, restartRequired));
    EchoIsIdentity(snapshot.value, snapshot.revision, restartRequired, env, normalizeCookie);
    EchoMutates(snapshot.value, patch, confirmed, env, normalizeCookie, explain);
    NoChangeWhen(
      Store.Request(Some(snapshot.revision), PutMutation(patch, confirmed, env, normalizeCookie, explain), ValidateText(env, explain)),
      snapshot);
  }

  // --------------------------------------------------------- what a patch leaves

  /** A secret after a patch: cleared, replaced, or as it was. */
  predicate SecretFollows(current: string, value: Option<string>, clear: bool, normalize: string -> string, next: string) {
    match value
    case Some(v) => !clear && Trim(v) != "" && next == normalize(v) && Trim(next) != ""
    case None => next == if clear then "" else current
  }

  lemma MergedSecretFollows(current: string, value: Option<string>, clear: bool, normalize: string -> string)
    requires MergeFields(current, value, clear, normalize).Ok?
    ensures SecretFollows(current, value, clear, normalize, MergeFields(current, value, clear, normalize).value)
  {
  }

  /** The password a kept server has: that of the current server with its final id, or none. */
  ghost predicate PasswordFollows(current: seq<Server>, patch: ServerPatch, next: Server) {
    match patch.password
    case Some(v) => !patch.clearPassword && Trim(v) != "" && next.password == v
    case None =>
      if patch.clearPassword then next.password == ""
      else
        && (forall server :: server in current && server.id == next.id ==> next.password == server.password)
        && ((forall server :: server in current ==> server.id != next.id) ==> next.password == "")
  }

  /** What the patch gives, or what is in force when it gives nothing. */
  predicate Chosen<T(==)>(given: Option<T>, current: T, next: T) {
    match given case Some(v) => next == v case None => next == current
  }

  /** A patched server: trimmed, under its final id, with the password that follows. */
  ghost predicate ServerFollows(current: seq<Server>, patch: ServerPatch, next: Server) {
    && next.name == Trim(patch.name) && next.baseUrl == Trim(patch.baseUrl) && next.username == Trim(patch.username)
    && next.insecureTls == patch.insecureTls
    && PasswordFollows(current, patch, next)
  }

  lemma {:induction false} NoPasswordFor(servers: seq<Server>, id: string)
    requires forall server :: server in servers ==> server.id != id
    ensures PasswordOf(servers, id) == ""
  {
    if servers != [] {
      assert servers[0] in servers;
      NoPasswordFor(servers[1..], id);
    }
  }

  lemma {:induction false} PatchFieldsAgree(patches: seq<ServerPatch>, i: nat)
    requires PasswordError(patches) == None && i < |patches|
    ensures FromFields(patches[i].password, patches[i].clearPassword).Ok?
  {
    if i < |patches| - 1 {
      PatchFieldsAgree(patches[..|patches| - 1], i);
    }
  }

  lemma NewPasswordFollows(current: seq<Server>, patches: seq<ServerPatch>, i: nat, next: Server)
    requires DistinctIds(current) && PasswordError(patches) == None && i < |patches|
    requires next.password == NewPassword(current, next.id, patches[i])
    ensures PasswordFollows(current, patches[i], next)
  {
    PatchFieldsAgree(patches, i);
    if forall server :: server in current ==> server.id != next.id {
      NoPasswordFor(current, next.id);
    }
    forall server | server in current && server.id == next.id ensures PasswordOf(current, next.id) == server.password {
      var k :| 0 <= k < |current| && current[k] == server;
      PasswordOfDistinct(current, k);
    }
  }

  /** Merged servers are normal: a password is no part of what normalising looks at. */
  lemma MergedServersAreNormal(current: seq<Server>, patches: seq<ServerPatch>, env: Env)
    requires DistinctIds(current) && MergeServers(current, patches, env).Ok?
    ensures var servers := MergeServers(current, patches, env).value;
      && |servers| == |patches| && NormalServers(servers, env) && NormalizeServers(BlankAll(patches), env).Ok?
      && forall i :: 0 <= i < |servers| ==>
           servers[i].id == NormalizeServers(BlankAll(patches), env).value[i].id && ServerFollows(current, patches[i], servers[i])
  {
    var blank := BlankAll(patches);
    var named := NormalizeServers(blank, env).value;
    ServersBecomeNormal(blank, env);
    var servers := MergeServers(current, patches, env).value;
    forall i | 0 <= i < |servers| ensures NormalServer(servers[i], env) && ServerFollows(current, patches[i], servers[i]) {
      assert NormalServer(named[i], env);
      NewPasswordFollows(current, patches, i, servers[i]);
    }
  }

  /** Servers after a patch: as they were, or one for each given, under the id that normalising gives it. */
  ghost predicate ServersFollow(current: seq<Server>, patches: Option<seq<ServerPatch>>, next: seq<Server>, env: Env) {
    match patches
    case None => next == current
    case Some(ps) =>
      var named := NormalizeServers(BlankAll(ps), env);
      && named.Ok? && |next| == |ps|
      && forall i :: 0 <= i < |ps| ==> next[i].id == named.value[i].id && ServerFollows(current, ps[i], next[i])
  }

  lemma PatchedServersFollow(current: seq<Server>, patches: Option<seq<ServerPatch>>, env: Env)
    requires NormalServers(current, env) && PatchServers(current, patches, env).Ok?
    ensures ServersFollow(current, patches, PatchServers(current, patches, env).value, env)
    ensures NormalizeServers(PatchServers(current, patches, env).value, env) == Ok(PatchServers(current, patches, env).value)
  {
    if patches.Some? {
      MergedServersAreNormal(current, patches.value, env);
    }
    NormalServersStay(PatchServers(current, patches, env).value, env);
  }

  /**
   An accepted patch gives a normal configuration. A secret the patch does not name stays as it was,
   on its own server; one it names is the one given, or gone; the other fields are those it names,
   normalised, or those in force.
   */
  lemma PatchOutcome(current: FileConfig, patch: Patch, env: Env, normalizeCookie: string -> string, next: FileConfig)
    requires NormalConfig(current, env) && MergePatch(current, patch, env, normalizeCookie) == Ok(next)
    ensures NormalConfig(next, env)
    ensures SecretFollows(current.tmdbApiKey, patch.tmdbApiKey, patch.clearTmdbApiKey, s => s, next.tmdbApiKey)
    ensures SecretFollows(current.mteamApiKey, patch.mteamApiKey, patch.clearMteamApiKey, s => s, next.mteamApiKey)
    ensures SecretFollows(current.doubanCookie, patch.doubanCookie, patch.clearDoubanCookie, normalizeCookie, next.doubanCookie)
    ensures SecretFollows(current.management.adminToken, patch.adminToken, patch.clearAdminToken, s => s, next.management.adminToken)
    ensures ServersFollow(current.servers, patch.servers, next.servers, env)
    ensures Chosen(patch.listenIp, current.listenIp, next.listenIp) && Chosen(patch.listenPort, current.listenPort, next.listenPort)
    ensures Chosen(patch.allowedOrigins, current.management.allowedOrigins, next.management.allowedOrigins)
    ensures Chosen(patch.secureCookie, current.management.secureCookie, next.management.secureCookie)
    ensures forall categories :: Chosen(patch.categories, current.categories, categories) ==>
      NormalizeCategories(categories, next.servers) == Ok(next.categories)
    ensures forall watcher :: Chosen(patch.watcher, current.watcher, watcher) ==> next.watcher == NormalizeWatcher(watcher)
    ensures forall rules :: Chosen(patch.rules, current.rules, rules) ==> NormalizeRules(rules) == Ok(next.rules)
  {
    hide NormalizeServers, NormalizeCategories, NormalizeRules, Validate, MergeServers, NormalConfig, ServersFollow;
    var secrets := MergeSecrets(current, patch, normalizeCookie).value;
    SecretsFollow(current, patch, normalizeCookie);
    assert NormalServers(current.servers, env) by { NormalServersOf(current, env); }
    PatchedServersFollow(current.servers, patch.servers, env);
    NormalizedIsNormal(ApplyPatch(current, patch, env, normalizeCookie).value, env);
  }

  lemma NormalServersOf(cfg: FileConfig, env: Env)
    requires NormalConfig(cfg, env)
    ensures NormalServers(cfg.servers, env)
  {
  }

  lemma SecretsFollow(current: FileConfig, patch: Patch, normalizeCookie: string -> string)
    requires MergeSecrets(current, patch, normalizeCookie).Ok?
    ensures var secrets := MergeSecrets(current, patch, normalizeCookie).value;
      && SecretFollows(current.tmdbApiKey, patch.tmdbApiKey, patch.clearTmdbApiKey, s => s, secrets.tmdb)
      && SecretFollows(current.mteamApiKey, patch.mteamApiKey, patch.clearMteamApiKey, s => s, secrets.mteam)
      && SecretFollows(current.doubanCookie, patch.doubanCookie, patch.clearDoubanCookie, normalizeCookie, secrets.cookie)
      && SecretFollows(current.management.adminToken, patch.adminToken, patch.clearAdminToken, s => s, secrets.token)
  {
    hide MergeFields, SecretFollows;
    MergedSecretFollows(current.tmdbApiKey, patch.tmdbApiKey, patch.clearTmdbApiKey, s => s);
    MergedSecretFollows(current.mteamApiKey, patch.mteamApiKey, patch.clearMteamApiKey, s => s);
    MergedSecretFollows(current.doubanCookie, patch.doubanCookie, patch.clearDoubanCookie, normalizeCookie);
    MergedSecretFollows(current.management.adminToken, patch.adminToken, patch.clearAdminToken, s => s);
  }

  // ---------------------------------------------------------- runs of such updates

  /** The update leaves a normal configuration normal. */
  ghost predicate KeepsNormal(mutate: FileConfig -> Result<FileConfig, string>, env: Env) {
    forall cfg :: NormalConfig(cfg, env) && mutate(cfg).Ok? ==> NormalConfig(mutate(cfg).value, env)
  }

  /** A new cookie, as the login flow stores it. */
  function CookieMutation(cookie: string): FileConfig -> Result<FileConfig, string> {
    (cfg: FileConfig) => Ok(cfg.(doubanCookie := cookie))
  }

  /** Both updates the program makes do: a patch, and a new cookie. */
  lemma UpdatesKeepNormal(
    patch: Patch, confirmed: bool, cookie: string, env: Env, normalizeCookie: string -> string, explain: PatchError -> string)
    ensures KeepsNormal(PutMutation(patch, confirmed, env, normalizeCookie, explain), env)
    ensures KeepsNormal(CookieMutation(cookie), env)
  {
    var put := PutMutation(patch, confirmed, env, normalizeCookie, explain);
    forall cfg | NormalConfig(cfg, env) && put(cfg).Ok? ensures NormalConfig(put(cfg).value, env) {
      assert put(cfg) == Explained(PutConfig(cfg, patch, confirmed, env, normalizeCookie), explain);
      PatchOutcome(cfg, patch, env, normalizeCookie, put(cfg).value);
    }
    forall cfg | NormalConfig(cfg, env) ensures NormalConfig(CookieMutation(cookie)(cfg).value, env) {
      assert Validate(cfg.(doubanCookie := cookie), env) == Validate(cfg, env);
    }
  }

  lemma AtomicKeepsNormal(
    request: Store.Request<FileConfig>, before: Store.Snapshot<FileConfig>,
    result: Result<Store.Snapshot<FileConfig>, Store.UpdateError>, after: Store.Snapshot<FileConfig>, env: Env)
    requires Store.AtomicUpdate(request, before, result, after) && KeepsNormal(request.mutate, env) && NormalConfig(before.value, env)
    ensures NormalConfig(after.value, env)
  {
    hide NormalConfig;
  }

  /** So in every run of such updates, however they interleave, every snapshot is normal. */
  lemma {:induction false} RunStaysNormal(
    w: Store.World<FileConfig>, value: FileConfig, steps: seq<Store.Step>, states: seq<Store.State<FileConfig>>, k: nat, env: Env)
    requires w.capacity == 1 && Store.Run(w, value, steps, states) && k <= |steps|
    requires NormalConfig(value, env) && forall id :: id in w.requests ==> KeepsNormal(w.requests[id].mutate, env)
    ensures NormalConfig(states[k].memory.value, env)
  {
    hide NormalConfig, KeepsNormal, Store.AtomicUpdate, Store.Apply, Store.Enabled;
    if k > 0 {
      RunStaysNormal(w, value, steps, states, k - 1, env);
      Store.RunRefines(w, value, steps, states, k - 1);
      var a, a' := Store.View(states[k - 1]), Store.View(states[k]);
      if a' != a {
        var id := steps[k - 1].caller;
        AtomicKeepsNormal(w.requests[id], a.memory, a'.results[id], a'.memory, env);
      }
    }
  }

  /** And sending back what any state of such a run shows is an update that changes nothing. */
  lemma EchoInRunIsNoOp(
    w: Store.World<FileConfig>, value: FileConfig, steps: seq<Store.Step>, states: seq<Store.State<FileConfig>>, k: nat,
    restartRequired: bool, confirmed: bool, env: Env, normalizeCookie: string -> string, explain: PatchError -> string)
    requires w.capacity == 1 && Store.Run(w, value, steps, states) && k <= |steps|
    requires NormalConfig(value, env) && forall id :: id in w.requests ==> KeepsNormal(w.requests[id].mutate, env)
    ensures var snapshot := states[k].memory;
      var patch := Echo(ConfigResponse(snapshot.revision, snapshot.value, restartRequired));
      Store.Prepare(
        Store.Request(Some(snapshot.revision), PutMutation(patch, confirmed, env, normalizeCookie, explain), ValidateText(env, explain)),
        snapshot) == Store.NoChange
  {
    RunStaysNormal(w, value, steps, states, k, env);
    EchoUpdateIsNoOp(states[k].memory, restartRequired, confirmed, env, normalizeCookie, explain);
  }

  // ------------------------------------------------------------ nothing leaks out

  /** Two configurations that differ in secrets only, and agree on which secrets are set. */
  predicate SameButSecrets(a: FileConfig, b: FileConfig) {
    && a.listenIp == b.listenIp && a.listenPort == b.listenPort
    && a.categories == b.categories && a.watcher == b.watcher && a.rules == b.rules
    && a.management.allowedOrigins == b.management.allowedOrigins && a.management.secureCookie == b.management.secureCookie
    && (Trim(a.tmdbApiKey) == "" <==> Trim(b.tmdbApiKey) == "")
    && (Trim(a.mteamApiKey) == "" <==> Trim(b.mteamApiKey) == "")
    && (Trim(a.doubanCookie) == "" <==> Trim(b.doubanCookie) == "")
    && (Trim(a.management.adminToken) == "" <==> Trim(b.management.adminToken) == "")
    && |a.servers| == |b.servers|
    && forall i :: 0 <= i < |a.servers| ==>
         a.servers[i].(password := "") == b.servers[i].(password := "") && (a.servers[i].password == "" <==> b.servers[i].password == "")
  }

  /** A response says of each secret only whether it is set. */
  lemma ResponseHidesSecrets(revision: nat, a: FileConfig, b: FileConfig, restartRequired: bool)
    requires SameButSecrets(a, b)
    ensures ConfigResponse(revision, a, restartRequired) == ConfigResponse(revision, b, restartRequired)
  {
    forall i | 0 <= i < |a.servers| ensures Redact(a.servers[i]) == Redact(b.servers[i]) {
      assert a.servers[i].(password := "") == b.servers[i].(password := "");
    }
    assert RedactAll(a.servers) == RedactAll(b.servers);
  }

  // ------------------------------------------------------------- what is shown

  /** A response shows every field but the secrets, and of each secret whether there is one. */
  lemma ResponseShows(revision: nat, cfg: FileConfig, restartRequired: bool)
    ensures var r := ConfigResponse(revision, cfg, restartRequired);
      && r.revision == revision && r.restartRequired == restartRequired
      && r.listenIp == cfg.listenIp && r.listenPort == cfg.listenPort
      && (r.hasTmdbApiKey <==> NotBlank(cfg.tmdbApiKey)) && (r.hasMteamApiKey <==> NotBlank(cfg.mteamApiKey))
      && (r.hasDoubanCookie <==> NotBlank(cfg.doubanCookie)) && (r.hasAdminToken <==> NotBlank(cfg.management.adminToken))
      && r.categories == cfg.categories && r.watcher == cfg.watcher && r.rules == cfg.rules
      && r.allowedOrigins == cfg.management.allowedOrigins && r.secureCookie == cfg.management.secureCookie
      && |r.servers| == |cfg.servers|
      && forall i :: 0 <= i < |r.servers| ==>
           var shown, server := r.servers[i], cfg.servers[i];
           && shown.id == server.id && shown.name == server.name && shown.baseUrl == server.baseUrl
           && shown.username == server.username && shown.insecureTls == server.insecureTls
           && (shown.hasPassword <==> |server.password| > 0)
  {
    NotBlankIff(cfg.tmdbApiKey);
    NotBlankIff(cfg.mteamApiKey);
    NotBlankIff(cfg.doubanCookie);
    NotBlankIff(cfg.management.adminToken);
    hide NotBlank, Trim;
  }

  // -------------------------------------------------- which patches are accepted

  /** The two fields of a secret do not contradict each other, and a value that is set is one. */
  predicate SecretFieldsOk(value: Option<string>, clear: bool, normalize: string -> string) {
    value.Some? ==> !clear && NotBlank(value.value) && NotBlank(normalize(value.value))
  }

  lemma MergeFieldsOkIff(current: string, value: Option<string>, clear: bool, normalize: string -> string)
    ensures MergeFields(current, value, clear, normalize).Ok? <==> SecretFieldsOk(value, clear, normalize)
    ensures MergeFields(current, value, clear, normalize).Err? ==> SecretComplaint(MergeFields(current, value, clear, normalize).error, value, clear, normalize)
  {
    if value.Some? {
      NotBlankIff(value.value);
      NotBlankIff(normalize(value.value));
    }
  }

  predicate SecretComplaint(e: PatchError, value: Option<string>, clear: bool, normalize: string -> string) {
    match e
    case SetAndClear => value.Some? && clear
    case EmptySecret => value.Some? && !clear && !NotBlank(value.value)
    case EmptyAfterNormalizing => value.Some? && !clear && NotBlank(value.value) && !NotBlank(normalize(value.value))
    case _ => false
  }

  predicate SecretsOk(patch: Patch, normalizeCookie: string -> string) {
    && SecretFieldsOk(patch.tmdbApiKey, patch.clearTmdbApiKey, s => s)
    && SecretFieldsOk(patch.mteamApiKey, patch.clearMteamApiKey, s => s)
    && SecretFieldsOk(patch.doubanCookie, patch.clearDoubanCookie, normalizeCookie)
    && SecretFieldsOk(patch.adminToken, patch.clearAdminToken, s => s)
  }

  /** One of the secrets of the patch is wrong in this way. */
  predicate SecretsComplaint(e: PatchError, patch: Patch, normalizeCookie: string -> string) {
    || SecretComplaint(e, patch.tmdbApiKey, patch.clearTmdbApiKey, s => s)
    || SecretComplaint(e, patch.mteamApiKey, patch.clearMteamApiKey, s => s)
    || SecretComplaint(e, patch.doubanCookie, patch.clearDoubanCookie, normalizeCookie)
    || SecretComplaint(e, patch.adminToken, patch.clearAdminToken, s => s)
  }

  lemma SecretsOkIff(current: FileConfig, patch: Patch, normalizeCookie: string -> string)
    ensures MergeSecrets(current, patch, normalizeCookie).Ok? <==> SecretsOk(patch, normalizeCookie)
    ensures MergeSecrets(current, patch, normalizeCookie).Err? ==>
      SecretsComplaint(MergeSecrets(current, patch, normalizeCookie).error, patch, normalizeCookie)
  {
    hide MergeFields, SecretFieldsOk, SecretComplaint;
    var same := (s: string) => s;
    MergeFieldsOkIff(current.tmdbApiKey, patch.tmdbApiKey, patch.clearTmdbApiKey, same);
    MergeFieldsOkIff(current.mteamApiKey, patch.mteamApiKey, patch.clearMteamApiKey, same);
    MergeFieldsOkIff(current.doubanCookie, patch.doubanCookie, patch.clearDoubanCookie, normalizeCookie);
    MergeFieldsOkIff(current.management.adminToken, patch.adminToken, patch.clearAdminToken, same);
  }

  /** A password that is set is one, and is not cleared as well. */
  predicate PasswordOk(patch: ServerPatch) {
    patch.password.Some? ==> !patch.clearPassword && NotBlank(patch.password.value)
  }

  lemma {:induction false} PasswordErrorIff(patches: seq<ServerPatch>)
    ensures PasswordError(patches) == None <==> forall i :: 0 <= i < |patches| ==> PasswordOk(patches[i])
    ensures PasswordError(patches).Some? ==> PasswordError(patches).value in {SetAndClear, EmptySecret}
  {
    if patches != [] {
      var init, last := patches[..|patches| - 1], patches[|patches| - 1];
      assert patches == init + [last];
      PasswordErrorIff(init);
      if last.password.Some? {
        NotBlankIff(last.password.value);
      }
    }
  }

  ghost predicate ServerPatchesOk(patches: Option<seq<ServerPatch>>, env: Env) {
    patches.Some? ==> forall i :: 0 <= i < |patches.value| ==>
      PasswordOk(patches.value[i]) && Trim(patches.value[i].baseUrl) != "" && env.baseUrlOk(Trim(patches.value[i].baseUrl))
  }

  lemma ServerPatchesOkIff(current: seq<Server>, patches: Option<seq<ServerPatch>>, env: Env)
    ensures PatchServers(current, patches, env).Ok? <==> ServerPatchesOk(patches, env)
  {
    hide NormalizeServers, PasswordOk;
    if patches.Some? {
      PasswordErrorIff(patches.value);
      ServersAcceptedIff(BlankAll(patches.value), env);
    }
  }

  /**
   A patch is accepted if and only if no secret is set to nothing or both set and cleared, the servers
   it gives have addresses, and the configuration it makes is in order in each of its parts.
   */
  lemma PatchAcceptedIff(current: FileConfig, patch: Patch, env: Env, normalizeCookie: string -> string)
    ensures ApplyPatch(current, patch, env, normalizeCookie).Ok? <==> SecretsOk(patch, normalizeCookie) && ServerPatchesOk(patch.servers, env)
    ensures MergePatch(current, patch, env, normalizeCookie).Ok? <==>
      && SecretsOk(patch, normalizeCookie) && ServerPatchesOk(patch.servers, env)
      && (forall next :: ApplyPatch(current, patch, env, normalizeCookie) == Ok(next) ==> ConfigOk(next, env))
    ensures forall e :: MergePatch(current, patch, env, normalizeCookie) == Err(e) && !SecretsOk(patch, normalizeCookie) ==>
      SecretsComplaint(e, patch, normalizeCookie)
  {
    hide MergeSecrets, PatchServers, SecretsOk, ServerPatchesOk, SecretsComplaint, NormalizeConfig, ConfigOk, Assemble;
    SecretsOkIff(current, patch, normalizeCookie);
    ServerPatchesOkIff(current.servers, patch.servers, env);
    var applied := ApplyPatch(current, patch, env, normalizeCookie);
    if applied.Ok? {
      ConfigAcceptedIff(applied.value, env);
    }
  }

  /** Confirmation is asked for exactly when an accepted patch would turn the automation on and does not confirm that. */
  lemma ConfirmationIff(cfg: FileConfig, patch: Patch, confirmed: bool, env: Env, normalizeCookie: string -> string)
    ensures var merged, put := MergePatch(cfg, patch, env, normalizeCookie), PutConfig(cfg, patch, confirmed, env, normalizeCookie);
      && (put == Err(ConfirmationRequired) <==> merged.Ok? && !confirmed && merged.value.watcher.enabled && !cfg.watcher.enabled)
      && (put != Err(ConfirmationRequired) ==> put == merged)
  {
    hide MergePatch;
    NeverConfirms(cfg, patch, env, normalizeCookie);
  }

  lemma NeverConfirms(cfg: FileConfig, patch: Patch, env: Env, normalizeCookie: string -> string)
    ensures MergePatch(cfg, patch, env, normalizeCookie) != Err(ConfirmationRequired)
  {
    hide NormalizeConfig, MergeFields, NormalizeServers;
    SecretsOkIff(cfg, patch, normalizeCookie);
    if patch.servers.Some? {
      PasswordErrorIff(patch.servers.value);
    }
  }

  /** The update that PUT asks for. */
  function PutRequest(revision: nat, patch: Patch, confirmed: bool, env: Env, normalizeCookie: string -> string, explain: PatchError -> string)
    : Store.Request<FileConfig>
  {
    Store.Request(Some(revision), PutMutation(patch, confirmed, env, normalizeCookie, explain), ValidateText(env, explain))
  }

  lemma PutIsAccepted(current: FileConfig, next: FileConfig, revision: nat, patch: Patch, confirmed: bool, env: Env,
                      normalizeCookie: string -> string, explain: PatchError -> string)
    requires MergePatch(current, patch, env, normalizeCookie) == Ok(next)
    requires confirmed || !next.watcher.enabled || current.watcher.enabled
    ensures Store.Accepts(PutRequest(revision, patch, confirmed, env, normalizeCookie, explain), current, next)
  {
    hide ApplyPatch, NormalizeConfig;
    ConfirmationIff(current, patch, confirmed, env, normalizeCookie);
    MergedIsValid(current, patch, env, normalizeCookie);
  }

  lemma MergedIsValid(current: FileConfig, patch: Patch, env: Env, normalizeCookie: string -> string)
    requires MergePatch(current, patch, env, normalizeCookie).Ok?
    ensures Validate(MergePatch(current, patch, env, normalizeCookie).value, env) == None
  {
    hide ApplyPatch;
    NormalizedIsNormal(ApplyPatch(current, patch, env, normalizeCookie).value, env);
  }

  /**
   A PUT does change the configuration: in any state of any run with no update under way, a PUT with the
   revision in memory whose patch is accepted, confirmed if need be, and changes something ends with the
   patched configuration in memory and on disk.
   */
  lemma PutGoesThrough(
    w: Store.World<FileConfig>, value: FileConfig, steps: seq<Store.Step>, states: seq<Store.State<FileConfig>>, id: nat,
    patch: Patch, confirmed: bool, env: Env, normalizeCookie: string -> string, explain: PatchError -> string, next: FileConfig)
    returns (steps': seq<Store.Step>, states': seq<Store.State<FileConfig>>)
    requires w.capacity > 0 && Store.Run(w, value, steps, states) && Store.AtRest(states[|steps|], id) && id in w.requests
    requires w.requests[id] == PutRequest(states[|steps|].memory.revision, patch, confirmed, env, normalizeCookie, explain)
    requires MergePatch(states[|steps|].memory.value, patch, env, normalizeCookie) == Ok(next) && next != states[|steps|].memory.value
    requires confirmed || !next.watcher.enabled || states[|steps|].memory.value.watcher.enabled
    ensures Store.Run(w, value, steps', states') && steps <= steps'
    ensures var published := Store.Snapshot(Store.Successor(states[|steps|].memory.revision), next);
      var s' := states'[|steps'|];
      && id in s'.phase && s'.phase[id] == Store.Done(Ok(published)) && s'.memory == published && s'.disk == next
  {
    assert |states| == |steps| + 1;
    hide MergePatch, Store.Run, Store.Accepts;
    PutIsAccepted(states[|steps|].memory.value, next, states[|steps|].memory.revision, patch, confirmed, env, normalizeCookie, explain);
    steps', states' := Store.UpdateGoesThrough(w, value, steps, states, id, next);
  }
}
