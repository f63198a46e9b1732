/** What every run of the deployment steps keeps. */
module DeploymentRuns {
  import opened Prelude
  import opened Text
  import opened Solution
  import opened Deployment

  // ----- The document is preserved

  const OWN_KEYS := {"auth", "graduation", "deployment_profile"}

  /** Only the keys that these steps own may differ. */
  ghost predicate KeepsTheRest(before: Doc, after: Doc, settings: bool) {
    forall k :: k !in OWN_KEYS && (settings ==> k !in SETTINGS_KEYS) ==> Top(after, k) == Top(before, k)
  }

  lemma StepKeepsKey(env: Env, s: State, e: Event, k: string)
    requires s.file.Present? && NoRebuild(s, [e])
    requires k !in OWN_KEYS && (e.SettingsSave? ==> k !in SETTINGS_KEYS)
    ensures var now := Step(env, s, e); now.file.Present? && Top(now.file.doc, k) == Top(s.file.doc, k)
  {
    assert [e][0] == e;
    match e
    case Connect(b, _, _) =>
      OneMerge(s.file.doc, FieldsOf(env, b), k);
      hide MergeEntraAuth, FieldsOf, GuardTrips;
    case Confirm(key, on, _) =>
      ConfirmSetsOneKey(s.file.doc, key, on);
      hide ConfirmUpdate;
    case SettingsSave(f, _, _) =>
      SettingsEffect(s.file.doc, f, k);
      hide MergeSettings;
    case _ => hide FreshDoc, LoadConfig, Checks, AllPass;
  }

  lemma StepKeepsTheRest(env: Env, s: State, e: Event)
    requires s.file.Present? && NoRebuild(s, [e])
    ensures var now := Step(env, s, e);
      now.file.Present? && KeepsTheRest(s.file.doc, now.file.doc, e.SettingsSave?)
  {
    StepKeepsKey(env, s, e, "sandbox");
    var now := Step(env, s, e);
    forall k | k !in OWN_KEYS && (e.SettingsSave? ==> k !in SETTINGS_KEYS)
      ensures Top(now.file.doc, k) == Top(s.file.doc, k)
    {
      StepKeepsKey(env, s, e, k);
    }
    hide Step, Top, OWN_KEYS, SETTINGS_KEYS;
  }

  lemma CompleteStays(env: Env, s: State, events: seq<Event>)
    ensures s.completeFlag ==> Run(env, s, events).completeFlag
  {
    if events == [] {
    } else {
      CompleteStays(env, s, events[..|events| - 1]);
      StepKeepsComplete(env, Run(env, s, events[..|events| - 1]), events[|events| - 1]);
      hide Step;
    }
  }

  lemma StepKeepsComplete(env: Env, s: State, e: Event)
    ensures s.completeFlag ==> Step(env, s, e).completeFlag
  {
    hide LoadConfig, FreshDoc, MergeEntraAuth, ConfirmUpdate, MergeSettings, Checks, AllPass, GuardTrips, FieldsOf;
  }

  /** The last event of a run without rebuilding. */
  lemma LastOfRun(env: Env, s: State, events: seq<Event>)
    requires events != [] && NoRebuild(s, events)
    ensures var init, last := events[..|events| - 1], events[|events| - 1];
      && NoRebuild(s, init) && NoRebuild(Run(env, s, init), [last])
      && (NoSettings(events) ==> NoSettings(init) && !last.SettingsSave?)
  {
    CompleteStays(env, s, events[..|events| - 1]);
    hide Run, Step;
  }

  /** From a parseable document, any sequence of connects, confirmations, completions, settings saves, re-entries and
      restarts, whatever the probes answer, leaves every other top-level key, and with it the local admin account, as it
      was; without settings saves the keys that only those own as well. */
  lemma {:induction false} DocumentPreserved(env: Env, s: State, events: seq<Event>)
    requires s.file.Present? && NoRebuild(s, events)
    ensures var now := Run(env, s, events);
      && now.file.Present? && KeepsTheRest(s.file.doc, now.file.doc, true)
      && (NoSettings(events) ==> KeepsTheRest(s.file.doc, now.file.doc, false))
      && LocalAdminHash(now.file.doc) == LocalAdminHash(s.file.doc)
  {
    if events == [] {
    } else {
      var init, last := events[..|events| - 1], events[|events| - 1];
      LastOfRun(env, s, events);
      DocumentPreserved(env, s, init);
      StepKeepsTheRest(env, Run(env, s, init), last);
      hide Step, LocalAdminHash, OWN_KEYS, SETTINGS_KEYS, NoRebuild, NoSettings, Top;
    }
    SandboxKept(s.file.doc, Run(env, s, events).file);
  }

  lemma SandboxKept(before: Doc, now: File)
    ensures now.Present? && KeepsTheRest(before, now.doc, true) ==> LocalAdminHash(now.doc) == LocalAdminHash(before)
  {
    assert "sandbox" !in OWN_KEYS && "sandbox" !in SETTINGS_KEYS;
    if now.Present? && KeepsTheRest(before, now.doc, true) {
      assert Top(now.doc, "sandbox") == Top(before, "sandbox");
    }
    hide Field, TextOr, Top;
  }

  // ----- Unparseable documents

  /** The upgrade panel reads an unparseable document as an empty one: a confirmation, or a completion whose checks
      pass on what the environment supplies, then writes a document that holds nothing else. Connect and the settings
      save, which refuse such a file, leave it alone. */
  lemma CorruptFiles(env: Env, s: State, key: string, o: Oracles, b: ConnectBody, probe: Probe, f: SettingsForm)
    requires s.file.Corrupt? && Mounted(s.config) && key in {"cert", "storage"}
    ensures Step(env, s, Confirm(key, true, true)).file == Present(ConfirmUpdate(map[], key, true))
    ensures ConfirmUpdate(map[], key, true).Keys == {"graduation"}
    ensures Step(env, s, Complete(o, true)).file
      == if Ready(s.config, o, []) then Present(map["deployment_profile" := Scalar("production")]) else Corrupt
    ensures Step(env, s, Connect(b, probe, true)) == s && Step(env, s, SettingsSave(f, true, true)) == s
  {
    OnlyGraduation(key);
    NothingConfirmed();
    ReadyIff(s.config, o, []);
    hide ConfirmUpdate, Confirmed, Checks, AllPass, Ready;
  }

  lemma OnlyGraduation(key: string)
    ensures ConfirmUpdate(map[], key, true).Keys == {"graduation"}
  {
    hide Updated, Confirmed, Scalars;
  }

  lemma NothingConfirmed()
    ensures Confirmed(map[]) == []
  {}

  /** Such a state is reached by a restart exactly in a sandbox outside setup mode. */
  lemma CorruptFilesReached(env: Env, s: State)
    requires s.file.Corrupt?
    ensures var now := Step(env, s, Restart);
      now.file.Corrupt? && (Mounted(now.config) <==> env.profile == "sandbox" && !s.setupFlag && s.completeFlag)
  {
    assert !IsProduction(map[]);
    hide TextOr, AuthField, LocalAdminHash;
  }

  // ----- The break-glass guard

  /** If the snapshot knows a break-glass account, the document still has it. */
  predicate BreakGlassStored(s: State) {
    s.config.isSandbox && s.config.breakGlassHash != "" ==> s.file.Present? && LocalAdminHash(s.file.doc) != ""
  }

  lemma StartStoresBreakGlass(env: Env, s: State)
    ensures BreakGlassStored(Started(env, s))
  {
    assert LocalAdminHash(map[]) == "";
    hide IsProduction, AuthField;
  }

  lemma StepStoresBreakGlass(env: Env, s: State, e: Event)
    requires BreakGlassStored(s) && NoRebuild(s, [e])
    ensures BreakGlassStored(Step(env, s, e))
  {
    match e
    case Restart =>
      StartStoresBreakGlass(env, s);
      hide BreakGlassStored, Started;
    case Boot(token) =>
      StartStoresBreakGlass(env, EntryPoint(s, token));
      hide BreakGlassStored, Started;
    case _ =>
      SameConfig(env, s, e);
      if s.file.Present? {
        DocumentPreserved(env, s, [e]);
        OneStep(env, s, e);
      }
      hide Step, LocalAdminHash;
  }

  lemma OneStep(env: Env, s: State, e: Event)
    ensures Run(env, s, [e]) == Step(env, s, e)
  {
    assert [e][..0] == [];
    assert Run(env, s, []) == s;
    hide Step;
  }

  lemma SameConfig(env: Env, s: State, e: Event)
    requires !e.Restart? && !e.Boot?
    ensures Step(env, s, e).config == s.config
  {
    hide FreshDoc, MergeEntraAuth, ConfirmUpdate, MergeSettings, Checks, AllPass, GuardTrips, FieldsOf, Documented;
  }

  lemma {:induction false} RunStoresBreakGlass(env: Env, s: State, events: seq<Event>)
    requires BreakGlassStored(s) && NoRebuild(s, events)
    ensures BreakGlassStored(Run(env, s, events))
  {
    if events == [] {
    } else {
      var init, last := events[..|events| - 1], events[|events| - 1];
      LastOfRun(env, s, events);
      RunStoresBreakGlass(env, s, init);
      StepStoresBreakGlass(env, Run(env, s, init), last);
      hide Step, BreakGlassStored, NoRebuild;
    }
  }

  /** Since the last start, as long as nothing rebuilt the document, the guard of /connect never trips: it is the
      impossible case its comment says it is. */
  lemma GuardNeverTrips(env: Env, s: State, events: seq<Event>, b: ConnectBody)
    requires NoRebuild(s, events)
    ensures var now := Run(env, Step(env, s, Restart), events);
      !GuardTrips(now.config, MergeEntraAuth(Documented(now.file), FieldsOf(env, b)))
  {
    var started := Step(env, s, Restart);
    assert started == Started(env, s) && started.completeFlag == s.completeFlag;
    StartStoresBreakGlass(env, s);
    hide Run, Step, Started, FieldsOf, LocalAdminHash;
    RunStoresBreakGlass(env, started, events);
    MergeKeepsLocalAdmin(Documented(Run(env, started, events).file), FieldsOf(env, b));
    hide MergeEntraAuth;
  }

  /** What decides whether the guard trips after a rebuild: the running process had a break-glass account, and the new
      document has none (the wizard's form gave no local password, or its hash came out empty; the text-mode setup never
      stores one). */
  predicate LosesBreakGlass(env: Env, s: State, e: Event) {
    && s.config.isSandbox && s.config.breakGlassHash != ""
    && (e.Save? ==> e.form.localPassword == "" || env.hash(e.form.localPassword) == "")
  }

  /** The step writes a document built from its form alone. */
  predicate Rebuilds(s: State, e: Event) {
    (e.Save? && e.session in s.verified && !e.writes.NothingWritten?) || (e.CliSetup? && !s.completeFlag)
  }

  predicate NoStart(events: seq<Event>) {
    forall i :: 0 <= i < |events| ==> !events[i].Restart? && !events[i].Boot?
  }

  /** From the last rebuild of the document to the next start, whatever else happens in between, the guard trips exactly
      when the rebuild lost the account. */
  lemma GuardAfterRebuild(env: Env, s: State, e: Event, events: seq<Event>, b: ConnectBody)
    requires Rebuilds(s, e) && NoRebuild(Step(env, s, e), events) && NoStart(events)
    ensures var now := Run(env, Step(env, s, e), events);
      GuardTrips(now.config, MergeEntraAuth(Documented(now.file), FieldsOf(env, b))) <==> LosesBreakGlass(env, s, e)
  {
    hide *;
    var rebuilt := Step(env, s, e);
    RebuiltDocument(env, s, e);
    DocumentPreserved(env, rebuilt, events);
    ConfigStays(env, rebuilt, events);
    var now := Run(env, rebuilt, events);
    DocumentOf(now.file);
    MergeKeepsLocalAdmin(Documented(now.file), FieldsOf(env, b));
    GuardByHash(now.config, MergeEntraAuth(Documented(now.file), FieldsOf(env, b)));
    LosesByHash(env, s, e, LocalAdminHash(rebuilt.file.doc));
  }

  lemma DocumentOf(f: File)
    ensures f.Present? ==> Documented(f) == f.doc
  {}

  lemma GuardByHash(c: Config, merged: Doc)
    ensures GuardTrips(c, merged) <==> c.isSandbox && c.breakGlassHash != "" && LocalAdminHash(merged) == ""
  {
    hide LocalAdminHash;
  }

  lemma LosesByHash(env: Env, s: State, e: Event, stored: string)
    requires e.Save? ==> stored == if s.config.isSandbox && e.form.localPassword != ""
                                   then env.hash(e.form.localPassword) else ""
    requires e.CliSetup? ==> stored == ""
    requires e.Save? || e.CliSetup?
    ensures LosesBreakGlass(env, s, e) <==> s.config.isSandbox && s.config.breakGlassHash != "" && stored == ""
  {}

  lemma RebuiltDocument(env: Env, s: State, e: Event)
    requires Rebuilds(s, e)
    ensures var rebuilt := Step(env, s, e);
      && rebuilt.file.Present? && rebuilt.config == s.config && (e.Save? || e.CliSetup?)
      && !IsProduction(rebuilt.file.doc)
      && (e.Save? ==>
            LocalAdminHash(rebuilt.file.doc)
            == if s.config.isSandbox && e.form.localPassword != "" then env.hash(e.form.localPassword) else "")
      && (e.CliSetup? ==> LocalAdminHash(rebuilt.file.doc) == "")
  {
    SavedHash(e.form, s.config.isSandbox, env.hash);
    SavedHash(e.form, false, env.hash);
    hide FreshDoc, LocalAdminHash, IsProduction;
  }

  lemma {:induction false} ConfigStays(env: Env, s: State, events: seq<Event>)
    requires NoStart(events)
    ensures Run(env, s, events).config == s.config
  {
    if events == [] {
    } else {
      var init, last := events[..|events| - 1], events[|events| - 1];
      ConfigStays(env, s, init);
      SameConfig(env, Run(env, s, init), last);
      hide Step;
    }
  }

  lemma MergeKeepsLocalAdmin(doc: Doc, f: EntraFields)
    ensures LocalAdminHash(MergeEntraAuth(doc, f)) == LocalAdminHash(doc)
  {
    OneMerge(doc, f, "sandbox");
    hide MergeEntraAuth, AuthField, CleanUsers, CleanGroups;
  }

  lemma SavedHash(form: SaveForm, sandbox: bool, hash: string -> string)
    ensures LocalAdminHash(FreshDoc(form, sandbox, hash))
         == if sandbox && form.localPassword != "" then hash(form.localPassword) else ""
    ensures !IsProduction(FreshDoc(form, sandbox, hash))
  {
    var doc := FreshDoc(form, sandbox, hash);
    assert "deployment_profile" !in doc;
  }

  // ----- The setup token

  /** The session was opened with the token of the moment, in this process. */
  ghost predicate Presented(env: Env, s: State, events: seq<Event>, session: string) {
    exists i :: 0 <= i < |events| && PresentedAt(env, s, events, session, i)
  }

  predicate PresentedAt(env: Env, s: State, events: seq<Event>, session: string, i: nat)
    requires i < |events|
  {
    && OpensSession(Run(env, s, events[..i]), events[i], session)
    && forall j :: i < j < |events| ==> !events[j].Restart? && !events[j].Boot?
  }

  predicate OpensSession(s: State, e: Event, session: string) {
    && e.VerifyToken? && e.session == session
    && s.token.Some? && Trim(s.token.value) != "" && Trim(e.got) == Trim(s.token.value)
  }

  lemma VerifiedStep(env: Env, s: State, e: Event, session: string)
    ensures session in Step(env, s, e).verified <==>
      !e.Restart? && !e.Boot? && (session in s.verified || OpensSession(s, e, session))
  {
    hide FreshDoc, MergeEntraAuth, ConfirmUpdate, MergeSettings, Checks, AllPass, GuardTrips, FieldsOf, LoadConfig,
         Trim, EntryPoint, Documented;
  }

  /** Which sessions may save the wizard: exactly those that presented the token that was valid at that moment, as long
      as the process has not restarted since. */
  lemma {:induction false} MaySaveIff(env: Env, s: State, events: seq<Event>, session: string)
    requires session !in s.verified
    ensures session in Run(env, s, events).verified <==> Presented(env, s, events, session)
  {
    if events == [] {
    } else {
      var init, last := events[..|events| - 1], events[|events| - 1];
      MaySaveIff(env, s, init, session);
      VerifiedStep(env, Run(env, s, init), last, session);
      PresentedSnoc(env, s, events, session);
      hide Step, OpensSession, Presented;
    }
  }

  lemma PresentedSnoc(env: Env, s: State, events: seq<Event>, session: string)
    requires events != []
    ensures var init, last := events[..|events| - 1], events[|events| - 1];
      Presented(env, s, events, session) <==>
        && !last.Restart? && !last.Boot?
        && (Presented(env, s, init, session) || OpensSession(Run(env, s, init), last, session))
  {
    hide Run, Trim;
    var init, last := events[..|events| - 1], events[|events| - 1];
    if Presented(env, s, events, session) {
      var i :| 0 <= i < |events| && PresentedAt(env, s, events, session, i);
      if i < |init| {
        assert init[..i] == events[..i];
        assert PresentedAt(env, s, init, session, i);
      } else {
        assert events[..i] == init && OpensSession(Run(env, s, init), last, session);
      }
    }
    if !last.Restart? && !last.Boot? {
      if Presented(env, s, init, session) {
        var i :| 0 <= i < |init| && PresentedAt(env, s, init, session, i);
        assert init[..i] == events[..i];
        assert PresentedAt(env, s, events, session, i);
      }
      if OpensSession(Run(env, s, init), last, session) {
        assert PresentedAt(env, s, events, session, |events| - 1);
      }
    }
  }

  /** The token is deleted by a finished save, but an open session stays open: until the process ends it saves again,
      whatever happens in between. */
  lemma SavesAgain(env: Env, s: State, session: string, form: SaveForm, events: seq<Event>, again: SaveForm)
    requires session in s.verified && NoStart(events)
    ensures Step(env, s, Save(session, form, Finished(true, true))).token == None
    ensures var now := Run(env, Step(env, s, Save(session, form, Finished(true, true))), events);
      Step(env, now, Save(session, again, Finished(true, true))).file
      == Present(FreshDoc(again, now.config.isSandbox, env.hash))
  {
    var saved := Step(env, s, Save(session, form, Finished(true, true)));
    VerifiedStep(env, s, Save(session, form, Finished(true, true)), session);
    StaysOpen(env, saved, session, events);
    hide Run, FreshDoc;
  }

  lemma {:induction false} StaysOpen(env: Env, s: State, session: string, events: seq<Event>)
    requires session in s.verified && NoStart(events)
    ensures session in Run(env, s, events).verified
  {
    if events == [] {
    } else {
      var init, last := events[..|events| - 1], events[|events| - 1];
      StaysOpen(env, s, session, init);
      VerifiedStep(env, Run(env, s, init), last, session);
      hide Step, OpensSession;
    }
  }

  // ----- Setup mode

  /** Re-entering the wizard takes effect when the process is respawned, as long as nothing rebuilt the document since;
      starting the container anew undoes it instead, and deletes the token, once setup was ever completed. */
  lemma ReEntry(env: Env, s: State, token: string, events: seq<Event>, bootToken: string)
    requires !s.config.inSetupMode
    requires NoRebuild(Step(env, s, ReEnter(token)), events) && NoStart(events)
    ensures var now := Run(env, Step(env, s, ReEnter(token)), events);
      && Step(env, now, Restart).config.inSetupMode
      && var booted := Step(env, now, Boot(bootToken));
         && (booted.config.inSetupMode <==> !s.completeFlag)
         && (s.completeFlag ==> booted.token == None && !booted.setupFlag)
  {
    var entered := Step(env, s, ReEnter(token));
    FlagsStay(env, entered, events);
    hide Run, TextOr, AuthField, LocalAdminHash, IsProduction;
  }

  /** Starting the container settles the flags by setup.complete alone, before the configuration is loaded: with it the
      wizard is closed and the token is gone; without it the wizard is open under the token that is there, or else under
      a new one. */
  lemma ContainerStart(env: Env, s: State, bootToken: string)
    ensures var now := Step(env, s, Boot(bootToken));
      && now.file == s.file && now.verified == {} && now.completeFlag == s.completeFlag
      && now.setupFlag == now.config.inSetupMode == !s.completeFlag
      && (s.completeFlag ==> now.token == None)
      && (!s.completeFlag ==> now.token == if s.token.Some? then s.token else Some(bootToken))
  {
    hide TextOr, AuthField, LocalAdminHash, IsProduction;
  }

  predicate NoSetup(events: seq<Event>) {
    forall i :: 0 <= i < |events| ==> !events[i].Save? && !events[i].CliSetup?
  }

  /** A process in setup mode serves the wizard only: until it ends, and short of a wizard save or a text-mode setup,
      nothing but the list of opened sessions changes. */
  lemma {:induction false} SetupModeKeepsAll(env: Env, s: State, events: seq<Event>)
    requires s.config.inSetupMode && NoStart(events) && NoSetup(events)
    ensures Run(env, s, events) == s.(verified := Run(env, s, events).verified)
  {
    if events == [] {
    } else {
      var init, last := events[..|events| - 1], events[|events| - 1];
      SetupModeKeepsAll(env, s, init);
      hide Mounted, TokenMatches;
      SetupModeStep(env, Run(env, s, init), last);
      hide Step;
    }
  }

  lemma SetupModeStep(env: Env, s: State, e: Event)
    requires s.config.inSetupMode && !e.Restart? && !e.Boot? && !e.Save? && !e.CliSetup?
    ensures Step(env, s, e) == s.(verified := Step(env, s, e).verified)
  {
    hide LoadConfig, FreshDoc, MergeEntraAuth, ConfirmUpdate, MergeSettings, Checks, AllPass, GuardTrips, FieldsOf;
  }

  lemma {:induction false} FlagsStay(env: Env, s: State, events: seq<Event>)
    requires NoRebuild(s, events) && NoStart(events) && s.setupFlag
    ensures Run(env, s, events).setupFlag && Run(env, s, events).completeFlag == s.completeFlag
  {
    if events == [] {
    } else {
      var init, last := events[..|events| - 1], events[|events| - 1];
      LastOfRun(env, s, events);
      FlagsStay(env, s, init);
      FlagStep(env, Run(env, s, init), last);
      hide Step;
    }
  }

  lemma FlagStep(env: Env, s: State, e: Event)
    requires NoRebuild(s, [e]) && !e.Restart? && !e.Boot? && s.setupFlag
    ensures Step(env, s, e).setupFlag && Step(env, s, e).completeFlag == s.completeFlag
  {
    assert [e][0] == e;
    hide LoadConfig, FreshDoc, MergeEntraAuth, ConfirmUpdate, MergeSettings, Checks, AllPass, GuardTrips, FieldsOf;
  }

  // ----- Graduation

  predicate Graduated(s: State) {
    s.file.Present? && IsProduction(s.file.doc)
  }

  /** Nothing but a completion whose checks all pass writes the production profile. */
  lemma GraduationIsGated(env: Env, s: State, e: Event)
    requires !Graduated(s) && Graduated(Step(env, s, e))
    ensures e.Complete? && Mounted(s.config) && Ready(s.config, e.oracles, Confirmed(Documented(s.file)))
  {
    match e
    case Connect(b, _, _) =>
      OneMerge(Documented(s.file), FieldsOf(env, b), "deployment_profile");
      hide MergeEntraAuth, FieldsOf, GuardTrips;
    case Confirm(key, on, _) =>
      ConfirmSetsOneKey(Documented(s.file), key, on);
      hide ConfirmUpdate;
    case Complete(o, _) =>
      ReadyIff(s.config, o, Confirmed(Documented(s.file)));
      hide Checks, AllPass, Ready, Confirmed;
    case SettingsSave(f, _, _) =>
      ProfileIsNoSetting();
      SettingsEffect(Documented(s.file), f, "deployment_profile");
      hide MergeSettings, SETTINGS_KEYS;
    case VerifyToken(_, _) =>
    case Save(_, form, _) =>
      SavedHash(form, s.config.isSandbox, env.hash);
      hide FreshDoc;
    case CliSetup(form) =>
      SavedHash(form, false, env.hash);
      hide FreshDoc;
    case ReEnter(_) =>
    case Restart => hide LoadConfig;
    case Boot(_) => hide LoadConfig;
  }

  lemma ProfileIsNoSetting()
    ensures "deployment_profile" !in SETTINGS_KEYS && "graduation" !in SETTINGS_KEYS && "sandbox" !in SETTINGS_KEYS
  {}

  lemma StepKeepsGraduation(env: Env, s: State, e: Event)
    requires Graduated(s) && NoRebuild(s, [e])
    ensures Graduated(Step(env, s, e))
  {
    assert [e][0] == e;
    match e
    case Connect(b, _, _) =>
      OneMerge(Documented(s.file), FieldsOf(env, b), "deployment_profile");
      hide MergeEntraAuth, FieldsOf, GuardTrips;
    case Confirm(key, on, _) =>
      ConfirmSetsOneKey(Documented(s.file), key, on);
      assert "deployment_profile" != "graduation";
      hide ConfirmUpdate;
    case SettingsSave(f, _, _) =>
      ProfileIsNoSetting();
      SettingsEffect(Documented(s.file), f, "deployment_profile");
      hide MergeSettings, SETTINGS_KEYS;
    case _ => hide LoadConfig, Checks, AllPass;
  }

  /** Graduation sticks: as long as nothing rebuilds the document it stays graduated, and a start outside setup mode
      loads a configuration that is no sandbox, whatever the environment says; a start inside setup mode does not see
      the document. */
  lemma {:induction false} GraduationSticks(env: Env, s: State, events: seq<Event>)
    requires Graduated(s) && NoRebuild(s, events)
    ensures var now := Run(env, s, events);
      && Graduated(now)
      && (!LoadConfig(env, now).inSetupMode ==> !LoadConfig(env, now).isSandbox)
      && (LoadConfig(env, now).inSetupMode ==> (LoadConfig(env, now).isSandbox <==> env.profile == "sandbox"))
  {
    if events == [] {
    } else {
      var init, last := events[..|events| - 1], events[|events| - 1];
      LastOfRun(env, s, events);
      GraduationSticks(env, s, init);
      StepKeepsGraduation(env, Run(env, s, init), last);
      hide Step, NoRebuild;
    }
    LoadsGraduated(env, Run(env, s, events));
    hide LoadConfig, Graduated;
  }

  lemma LoadsGraduated(env: Env, s: State)
    ensures var c := LoadConfig(env, s);
      Graduated(s) ==> (c.isSandbox <==> c.inSetupMode && env.profile == "sandbox")
  {
    assert !IsProduction(map[]);
    hide TextOr, AuthField, LocalAdminHash;
  }

  /** A wizard save that writes the document, or a text-mode setup, rebuilds it without a profile, and nothing but a
      completion whose checks all pass brings it back: any later start is a sandbox exactly when the environment says
      so. */
  lemma RebuildUndoesGraduation(env: Env, s: State, e: Event, events: seq<Event>)
    requires Rebuilds(s, e) && NoCompletion(events)
    ensures var now := Run(env, Step(env, s, e), events);
      !Graduated(now) && (Step(env, now, Restart).config.isSandbox <==> env.profile == "sandbox")
  {
    hide *;
    RebuiltDocument(env, s, e);
    NotGraduated(Step(env, s, e));
    StaysUngraduated(env, Step(env, s, e), events);
    LoadsUngraduated(env, Run(env, Step(env, s, e), events));
  }

  predicate NoCompletion(events: seq<Event>) {
    forall i :: 0 <= i < |events| ==> !events[i].Complete?
  }

  lemma NotGraduated(s: State)
    requires s.file.Present? && !IsProduction(s.file.doc)
    ensures !Graduated(s)
  {}

  lemma {:induction false} StaysUngraduated(env: Env, s: State, events: seq<Event>)
    requires !Graduated(s) && NoCompletion(events)
    ensures !Graduated(Run(env, s, events))
  {
    if events == [] {
    } else {
      var init, last := events[..|events| - 1], events[|events| - 1];
      StaysUngraduated(env, s, init);
      if Graduated(Run(env, s, events)) {
        hide Step, Graduated, Ready;
        GraduationIsGated(env, Run(env, s, init), last);
      }
    }
  }

  lemma LoadsUngraduated(env: Env, s: State)
    requires !Graduated(s)
    ensures Step(env, s, Restart).config.isSandbox <==> env.profile == "sandbox"
  {
    assert !IsProduction(map[]);
    hide TextOr, AuthField, LocalAdminHash;
  }

  /** The settings forms that a run wrote, in order. */
  function SavedSettings(env: Env, s: State, events: seq<Event>): seq<SettingsForm> {
    if events == [] then [] else
      var init, last := events[..|events| - 1], events[|events| - 1];
      SavedSettings(env, s, init)
      + if last.SettingsSave? && SettingsWrites(Run(env, s, init), last.accepted, last.writable)
        then [last.settings] else []
  }

  /** Once a graduated deployment has started, connect, confirm and complete are out of reach, whatever else happens; as
      long as nothing rebuilds the document, it is the graduated one with the saved settings, and so differs from it in
      no key but those of the Settings tab. */
  lemma {:induction false} GraduatedChangesOnlySettings(env: Env, s: State, events: seq<Event>)
    requires Graduated(s) && s.config == LoadConfig(env, s) && NoRebuild(s, events)
    ensures var now := Run(env, s, events);
      && !Mounted(now.config)
      && now.file == Present(MergeAllSettings(s.file.doc, SavedSettings(env, s, events)))
      && forall k :: k !in SETTINGS_KEYS ==> Top(now.file.doc, k) == Top(s.file.doc, k)
  {
    if events == [] {
      LoadsGraduated(env, s);
      hide LoadConfig;
    } else {
      var init, last := events[..|events| - 1], events[|events| - 1];
      LastOfRun(env, s, events);
      GraduatedChangesOnlySettings(env, s, init);
      GraduationSticks(env, s, init);
      GraduatedStep(env, Run(env, s, init), last);
      StepSettings(env, s, events);
      hide Step, Run, SavedSettings, MergeAllSettings, Mounted, Graduated, NoRebuild, LoadConfig, SETTINGS_KEYS, Top;
      if SavedSettings(env, s, events) == SavedSettings(env, s, init) {
      } else {
        forall k | k !in SETTINGS_KEYS
          ensures Top(Run(env, s, events).file.doc, k) == Top(s.file.doc, k)
        {
          SettingsEffect(Run(env, s, init).file.doc, last.settings, k);
        }
      }
    }
  }

  /** One step of a started, graduated deployment. */
  lemma GraduatedStep(env: Env, s: State, e: Event)
    requires Graduated(s) && !Mounted(s.config) && NoRebuild(s, [e])
    ensures !Mounted(Step(env, s, e).config)
    ensures Step(env, s, e).file
      == if e.SettingsSave? && SettingsWrites(s, e.accepted, e.writable)
         then Present(MergeSettings(s.file.doc, e.settings))
         else s.file
  {
    assert [e][0] == e;
    match e
    case Restart =>
      LoadsGraduated(env, s);
      hide LoadConfig;
    case Boot(token) =>
      LoadsGraduated(env, EntryPoint(s, token));
      hide LoadConfig;
    case _ => hide LoadConfig, MergeSettings, FreshDoc, Checks, AllPass, GuardTrips;
  }

  lemma StepSettings(env: Env, s: State, events: seq<Event>)
    requires events != []
    ensures var init, last := events[..|events| - 1], events[|events| - 1];
      var before, after := SavedSettings(env, s, init), SavedSettings(env, s, events);
      && Run(env, s, events) == Step(env, Run(env, s, init), last)
      && (if last.SettingsSave? && SettingsWrites(Run(env, s, init), last.accepted, last.writable)
          then after == before + [last.settings] else after == before)
      && forall doc :: after == before + (if after == before then [] else [last.settings]) && after != before ==>
           MergeAllSettings(doc, after) == MergeSettings(MergeAllSettings(doc, before), last.settings)
  {
    hide Step, MergeSettings, SettingsWrites;
    var init, last := events[..|events| - 1], events[|events| - 1];
    var before, after := SavedSettings(env, s, init), SavedSettings(env, s, events);
    if after != before {
      assert after[..|after| - 1] == before && after[|after| - 1] == last.settings;
    }
  }
}
