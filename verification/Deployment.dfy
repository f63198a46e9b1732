/** The deployment state machine: a stored solution document and flag files, a configuration snapshot loaded at
    process start that lags behind them, and the steps that change either (config.js, setup.js, entra-connect.js,
    upgrade.js, the settings save of WebRouter.ps1, the text-mode setup, and the container entrypoint). */
module Deployment {
  import opened Prelude
  import opened Text
  import opened Solution

  // ----- State

  /** solution.yaml: missing, present but unparseable, or a mapping. */
  datatype File = Missing | Corrupt | Present(doc: Doc)

  /** What loadConfig took from env and the document. */
  datatype Config = Config(inSetupMode: bool, isSandbox: bool, tenantId: string, clientId: string,
                           clientSecret: string, breakGlassHash: string)

  /** `verified` holds the sessions that the setup token opened; sessions live as long as the process. */
  datatype State = State(file: File, setupFlag: bool, completeFlag: bool, token: Option<string>, verified: set<string>,
                         config: Config)

  /** The environment of the container; hash stands for hashPassword. */
  datatype Env = Env(profile: string, tenantId: string, clientId: string, clientSecret: string, redirectUri: string,
                     hash: string -> string)

  function Documented(f: File): Doc {
    if f.Present? then f.doc else map[]
  }

  /** loadConfig: setup mode ignores the document. */
  function LoadConfig(env: Env, s: State): Config {
    var inSetupMode := s.setupFlag || !s.completeFlag;
    var doc := if inSetupMode then map[] else Documented(s.file);
    Config(inSetupMode, !IsProduction(doc) && env.profile == "sandbox",
           TextOr(AuthField(doc, "tenant_id"), env.tenantId), TextOr(AuthField(doc, "client_id"), env.clientId),
           TextOr(AuthField(doc, "client_secret"), env.clientSecret), LocalAdminHash(doc))
  }

  /** The connect and upgrade routers are mounted only then. */
  predicate Mounted(c: Config) {
    !c.inSetupMode && c.isSandbox
  }

  // ----- Readiness

  datatype Probe = Accepted | Rejected | Unreachable

  datatype Oracles = Oracles(entra: Probe, certTrusted: bool, certReachable: bool, dockerSocket: bool,
                             namedVolume: Option<bool>)

  datatype Status = Pass | Fail | NeedsConfirm

  datatype Gap = EntraSignIn | Certificate | DockerAccess | HostStorage

  datatype Check = Check(gap: Gap, status: Status)

  predicate EntraConfigured(c: Config) {
    c.tenantId != "" && c.clientId != "" && c.clientSecret != ""
  }

  function EntraStatus(c: Config, o: Oracles): Status {
    if !EntraConfigured(c) then Fail else if o.entra == Accepted then Pass else Fail
  }

  function CertStatus(o: Oracles, confirmed: seq<string>): Status {
    if o.certTrusted then Pass
    else if !o.certReachable then (if "cert" in confirmed then Pass else NeedsConfirm)
    else Fail
  }

  function StorageStatus(o: Oracles, confirmed: seq<string>): Status {
    if o.namedVolume.Some? && !o.namedVolume.value then Pass
    else if o.namedVolume.Some? && o.namedVolume.value then Fail
    else if "storage" in confirmed then Pass else NeedsConfirm
  }

  function Checks(c: Config, o: Oracles, confirmed: seq<string>): seq<Check> {
    [Check(EntraSignIn, EntraStatus(c, o)), Check(Certificate, CertStatus(o, confirmed)),
     Check(DockerAccess, if o.dockerSocket then Pass else Fail), Check(HostStorage, StorageStatus(o, confirmed))]
  }

  predicate AllPass(checks: seq<Check>) {
    forall i :: 0 <= i < |checks| ==> checks[i].status == Pass
  }

  /** What every gap being green amounts to. */
  predicate Ready(c: Config, o: Oracles, confirmed: seq<string>) {
    && c.tenantId != "" && c.clientId != "" && c.clientSecret != "" && o.entra == Accepted
    && (o.certTrusted || (!o.certReachable && "cert" in confirmed))
    && o.dockerSocket
    && ((o.namedVolume.Some? && !o.namedVolume.value) || (o.namedVolume.None? && "storage" in confirmed))
  }

  /** An operator's word counts only where nothing could be measured: it never outweighs a failed check. */
  lemma ReadyIff(c: Config, o: Oracles, confirmed: seq<string>)
    ensures AllPass(Checks(c, o, confirmed)) <==> Ready(c, o, confirmed)
  {
    var checks := Checks(c, o, confirmed);
    AllFour(checks);
    assert EntraStatus(c, o) == Pass <==> EntraConfigured(c) && o.entra == Accepted;
    assert CertStatus(o, confirmed) == Pass <==> o.certTrusted || (!o.certReachable && "cert" in confirmed);
    assert StorageStatus(o, confirmed) == Pass <==>
      ((o.namedVolume.Some? && !o.namedVolume.value) || (o.namedVolume.None? && "storage" in confirmed));
    hide EntraStatus, CertStatus, StorageStatus, AllPass;
  }

  lemma AllFour(checks: seq<Check>)
    requires |checks| == 4
    ensures AllPass(checks) <==>
      (checks[0].status == Pass && checks[1].status == Pass && checks[2].status == Pass && checks[3].status == Pass)
  {}

  // ----- Steps

  /** The body of a connect request. */
  datatype ConnectBody = ConnectBody(tenantId: string, clientId: string, clientSecret: string, users: seq<string>,
                                     groups: seq<Group>)

  /** How far the writes of a wizard save got; removing the flag and the token is tried last, and may fail silently. */
  datatype SaveWrites = NothingWritten | DocumentOnly | Finished(flagGone: bool, tokenGone: bool)

  datatype Event =
    | Connect(body: ConnectBody, probe: Probe, writable: bool)
    | Confirm(key: string, on: bool, writable: bool)
    | Complete(oracles: Oracles, writable: bool)
    | SettingsSave(settings: SettingsForm, accepted: bool, writable: bool)
    | VerifyToken(session: string, got: string)
    | Save(session: string, form: SaveForm, writes: SaveWrites)
    | CliSetup(form: SaveForm)
    | ReEnter(newToken: string)
    | Restart
    | Boot(bootToken: string)

  function FieldsOf(env: Env, b: ConnectBody): EntraFields {
    EntraFields(Trim(b.tenantId), Trim(b.clientId), Trim(b.clientSecret), env.redirectUri, b.users, b.groups)
  }

  predicate BodyComplete(b: ConnectBody) {
    Trim(b.tenantId) != "" && Trim(b.clientId) != "" && Trim(b.clientSecret) != ""
  }

  /** The last check before the write: the break-glass account must survive the merge. */
  predicate GuardTrips(c: Config, merged: Doc) {
    c.isSandbox && c.breakGlassHash != "" && LocalAdminHash(merged) == ""
  }

  /** Whether a connect request gets as far as writing. */
  predicate ConnectWrites(env: Env, s: State, b: ConnectBody, probe: Probe, writable: bool) {
    && Mounted(s.config) && BodyComplete(b) && !s.file.Corrupt? && probe == Accepted
    && !GuardTrips(s.config, MergeEntraAuth(Documented(s.file), FieldsOf(env, b))) && writable
  }

  /** The settings route is mounted in normal mode, for every profile; the bridge refuses a document it cannot parse and
      an assembled configuration that fails its schema. */
  predicate SettingsWrites(s: State, accepted: bool, writable: bool) {
    !s.config.inSetupMode && !s.file.Corrupt? && accepted && writable
  }

  predicate TokenMatches(s: State, got: string) {
    s.token.Some? && Trim(s.token.value) != "" && Trim(got) == Trim(s.token.value)
  }

  /** After the writes of a save or of the text-mode setup. */
  function Rebuild(s: State, doc: Doc, writes: SaveWrites): State {
    match writes
    case NothingWritten => s
    case DocumentOnly => s.(file := Present(doc))
    case Finished(flagGone, tokenGone) =>
      s.(file := Present(doc), completeFlag := true, setupFlag := s.setupFlag && !flagGone,
         token := if tokenGone then None else s.token)
  }

  /** The entrypoint of a starting container, before the server starts. */
  function EntryPoint(s: State, newToken: string): State {
    if s.completeFlag then s.(setupFlag := false, token := None)
    else s.(setupFlag := true, token := if s.token.None? then Some(newToken) else s.token)
  }

  /** A new process: its configuration is loaded, its sessions are gone. */
  function Started(env: Env, s: State): State {
    s.(config := LoadConfig(env, s), verified := {})
  }

  function Step(env: Env, s: State, e: Event): State {
    match e
    case Connect(b, probe, writable) =>
      if ConnectWrites(env, s, b, probe, writable)
      then s.(file := Present(MergeEntraAuth(Documented(s.file), FieldsOf(env, b)))) else s
    case Confirm(key, on, writable) =>
      if Mounted(s.config) && key in {"cert", "storage"} && writable
      then s.(file := Present(ConfirmUpdate(Documented(s.file), key, on))) else s
    case Complete(o, writable) =>
      if Mounted(s.config) && AllPass(Checks(s.config, o, Confirmed(Documented(s.file)))) && writable
      then s.(file := Present(Documented(s.file)["deployment_profile" := Scalar("production")])) else s
    case SettingsSave(f, accepted, writable) =>
      if SettingsWrites(s, accepted, writable) then s.(file := Present(MergeSettings(Documented(s.file), f))) else s
    case VerifyToken(session, got) =>
      if TokenMatches(s, got) then s.(verified := s.verified + {session}) else s
    case Save(session, form, writes) =>
      if session in s.verified then Rebuild(s, FreshDoc(form, s.config.isSandbox, env.hash), writes) else s
    case CliSetup(form) =>
      if s.completeFlag then s else Rebuild(s, FreshDoc(form, false, env.hash), Finished(true, true))
    case ReEnter(token) => if s.config.inSetupMode then s else s.(setupFlag := true, token := Some(token))
    case Restart => Started(env, s)
    case Boot(token) => Started(env, EntryPoint(s, token))
  }

  function Run(env: Env, s: State, events: seq<Event>): State {
    if events == [] then s else Step(env, Run(env, s, events[..|events| - 1]), events[|events| - 1])
  }

  /** No step may rebuild the document: no wizard save, and the text-mode setup only where it refuses to run. */
  predicate NoRebuild(s: State, events: seq<Event>) {
    forall i :: 0 <= i < |events| ==> !events[i].Save? && (events[i].CliSetup? ==> s.completeFlag)
  }

  predicate NoSettings(events: seq<Event>) {
    forall i :: 0 <= i < |events| ==> !events[i].SettingsSave?
  }

  /** The server process and its files, with one method per handler. */
  class Server {
    var file: File
    var setupFlag: bool
    var completeFlag: bool
    var token: Option<string>
    var verified: set<string>
    var config: Config
    const env: Env

    ghost function Now(): State
      reads this
    {
      State(file, setupFlag, completeFlag, token, verified, config)
    }

    constructor (env: Env, file: File, setupFlag: bool, completeFlag: bool, token: Option<string>)
      ensures this.env == env && this.file == file && this.setupFlag == setupFlag
      ensures this.completeFlag == completeFlag && this.token == token && verified == {}
      ensures config == LoadConfig(env, State(file, setupFlag, completeFlag, token, verified, config))
    {
      this.env, this.file, this.setupFlag, this.completeFlag, this.token := env, file, setupFlag, completeFlag, token;
      var blank := Config(false, false, "", "", "", "");
      this.verified := {};
      this.config := LoadConfig(env, State(file, setupFlag, completeFlag, token, {}, blank));
    }

    /** POST /connect: the HTTP status tells which check stopped it. */
    method HandleConnect(b: ConnectBody, probe: Probe, writable: bool) returns (status: nat)
      requires Mounted(config)
      modifies this
      ensures Now() == Step(env, old(Now()), Connect(b, probe, writable))
      ensures status == 400 <==> Trim(b.tenantId) == "" || Trim(b.clientId) == "" || Trim(b.clientSecret) == ""
      ensures status == 409 <==> status != 400 && old(file).Corrupt?
      ensures status == 502 <==> status !in {400, 409} && probe == Unreachable
      ensures status == 422 <==> status !in {400, 409} && probe == Rejected
      ensures status !in {400, 409, 502, 422} ==>
        var merged := MergeEntraAuth(Documented(old(file)), FieldsOf(env, b));
        var trips := config.isSandbox && config.breakGlassHash != "" && LocalAdminHash(merged) == "";
        status == if trips || !writable then 500 else 200
      ensures status != 200 ==> Now() == old(Now())
    {
      hide LoadConfig, MergeEntraAuth, MergeSettings, FreshDoc, Trim, FieldsOf, Checks, AllPass, Documented,
        LocalAdminHash;
      if !BodyComplete(b) {
        return 400;
      }
      if file.Corrupt? {
        return 409;
      }
      if probe == Unreachable {
        return 502;
      }
      if probe == Rejected {
        return 422;
      }
      var merged := MergeEntraAuth(Documented(file), FieldsOf(env, b));
      if GuardTrips(config, merged) || !writable {
        return 500;
      }
      file := Present(merged);
      status := 200;
    }

    /** POST /confirm. */
    method HandleConfirm(key: string, on: bool, writable: bool) returns (status: nat)
      requires Mounted(config)
      modifies this
      ensures Now() == Step(env, old(Now()), Confirm(key, on, writable))
      ensures status == if key !in {"cert", "storage"} then 400 else if writable then 200 else 500
    {
      if key !in {"cert", "storage"} {
        return 400;
      }
      if !writable {
        return 500;
      }
      file := Present(ConfirmUpdate(Documented(file), key, on));
      status := 200;
    }

    /** runChecks: one entry after another. */
    method RunChecks(o: Oracles) returns (checks: seq<Check>)
      ensures checks == Checks(config, o, Confirmed(Documented(file)))
    {
      var confirmed := Confirmed(Documented(file));
      hide Confirmed, EntraConfigured, Documented;
      checks := [];
      if !EntraConfigured(config) {
        checks := checks + [Check(EntraSignIn, Fail)];
      } else if o.entra == Accepted {
        checks := checks + [Check(EntraSignIn, Pass)];
      } else {
        checks := checks + [Check(EntraSignIn, Fail)];
      }
      assert checks == [Check(EntraSignIn, EntraStatus(config, o))];
      var cert := CheckCertificate(o, confirmed);
      checks := checks + [cert];
      if o.dockerSocket {
        checks := checks + [Check(DockerAccess, Pass)];
      } else {
        checks := checks + [Check(DockerAccess, Fail)];
      }
      var storage := CheckStorage(o, confirmed);
      checks := checks + [storage];
      hide EntraStatus, CertStatus, StorageStatus;
    }

    method CheckCertificate(o: Oracles, confirmed: seq<string>) returns (check: Check)
      ensures check == Check(Certificate, CertStatus(o, confirmed))
    {
      if o.certTrusted {
        return Check(Certificate, Pass);
      }
      if !o.certReachable {
        return Check(Certificate, if "cert" in confirmed then Pass else NeedsConfirm);
      }
      check := Check(Certificate, Fail);
    }

    method CheckStorage(o: Oracles, confirmed: seq<string>) returns (check: Check)
      ensures check == Check(HostStorage, StorageStatus(o, confirmed))
    {
      if o.namedVolume.Some? {
        return Check(HostStorage, if o.namedVolume.value then Fail else Pass);
      }
      check := Check(HostStorage, if "storage" in confirmed then Pass else NeedsConfirm);
    }

    /** POST /complete. */
    method HandleComplete(o: Oracles, writable: bool) returns (status: nat)
      requires Mounted(config)
      modifies this
      ensures Now() == Step(env, old(Now()), Complete(o, writable))
      ensures status == 409 <==> !Ready(config, o, Confirmed(Documented(old(file))))
      ensures status == 200 ==> file.Present? && IsProduction(file.doc)
    {
      var checks := RunChecks(o);
      ReadyIff(config, o, Confirmed(Documented(file)));
      var i := 0;
      while i < |checks|
        invariant 0 <= i <= |checks|
        invariant forall j :: 0 <= j < i ==> checks[j].status == Pass
      {
        if checks[i].status != Pass {
          return 409;
        }
        i := i + 1;
      }
      if !writable {
        return 500;
      }
      file := Present(Documented(file)["deployment_profile" := Scalar("production")]);
      status := 200;
    }

    /** PUT /api/config: each section of the form in turn. */
    method HandleSettingsSave(f: SettingsForm, accepted: bool, writable: bool) returns (status: nat)
      requires !config.inSetupMode
      modifies this
      ensures Now() == Step(env, old(Now()), SettingsSave(f, accepted, writable))
      ensures status == if !old(file).Corrupt? && accepted && writable then 200 else 400
    {
      hide MergeSection, MergeTarget, MergeSmtp;
      if file.Corrupt? {
        return 400;
      }
      var sol := Documented(file);
      sol := MergeSection(sol, "auth", f.auth);
      sol := MergeTarget(sol, f.target);
      sol := MergeSmtp(sol, f.smtp);
      sol := MergeSection(sol, "container", f.container);
      if !accepted || !writable {
        return 400;
      }
      file := Present(sol);
      status := 200;
    }

    /** POST /verify-token. */
    method HandleVerifyToken(session: string, got: string) returns (status: nat)
      modifies this
      ensures Now() == Step(env, old(Now()), VerifyToken(session, got))
      ensures status == 409 <==> token.None? || Trim(token.value) == ""
      ensures status == 200 <==> token.Some? && Trim(token.value) != "" && Trim(got) == Trim(token.value)
      ensures status in {200, 403, 409}
    {
      hide Trim, FreshDoc, MergeSettings;
      if token.None? || Trim(token.value) == "" {
        return 409;
      }
      if Trim(got) == "" || Trim(got) != Trim(token.value) {
        return 403;
      }
      verified := verified + {session};
      status := 200;
    }

    /** POST /save: behind requireToken, a fresh document and markSetupComplete, write by write. */
    method HandleSave(session: string, form: SaveForm, writes: SaveWrites) returns (status: nat)
      modifies this
      ensures Now() == Step(env, old(Now()), Save(session, form, writes))
      ensures status == if session !in old(verified) then 401 else if writes.Finished? then 200 else 500
    {
      if session !in verified {
        return 401;
      }
      if writes.NothingWritten? {
        return 500;
      }
      file := Present(FreshDoc(form, config.isSandbox, env.hash));
      if writes.DocumentOnly? {
        return 500;
      }
      completeFlag := true;
      if writes.flagGone {
        setupFlag := false;
      }
      if writes.tokenGone {
        token := None;
      }
      status := 200;
    }

    /** reEnterSetupMode: the running process keeps its snapshot. */
    method ReEnterSetupMode(newToken: string)
      requires !config.inSetupMode
      modifies this
      ensures Now() == Step(env, old(Now()), ReEnter(newToken))
      ensures config == old(config)
    {
      setupFlag := true;
      token := Some(newToken);
    }

    /** The supervisor respawns the process. */
    method Respawn()
      modifies this
      ensures Now() == Step(env, old(Now()), Restart)
    {
      config := LoadConfig(env, State(file, setupFlag, completeFlag, token, verified, config));
      verified := {};
    }
  }
}
