/** From the body of a connect request to the configuration that the next start loads. */
module ConnectEffects {
  import opened Prelude
  import opened Text
  import opened Solution
  import opened Deployment

  /** `small` is `text` with its ASCII capitals replaced. */
  predicate LowerCased(text: string, small: string) {
    && |small| == |text|
    && forall i :: 0 <= i < |text| ==>
         small[i] as int == if 'A' <= text[i] <= 'Z' then text[i] as int + 32 else text[i] as int
  }

  /** `stored` holds the trimmed, lower-cased form of every entry that is not blank, and nothing else. */
  ghost predicate StoresUsers(users: seq<string>, stored: seq<Value>) {
    && (forall u :: u in users && !Blank(u) ==> StoredFor(u, stored))
    && (forall v :: v in stored ==> exists u :: u in users && !Blank(u) && UserEntry(u, v))
  }

  ghost predicate StoredFor(u: string, stored: seq<Value>) {
    exists v :: v in stored && UserEntry(u, v)
  }

  predicate UserEntry(u: string, v: Value) {
    v.Scalar? && LowerCased(Trim(u), v.text)
  }

  /** `stored` holds, for every group with an id, that id and its display name, or the id again when it has none. */
  ghost predicate StoresGroups(groups: seq<Group>, stored: seq<Value>) {
    && (forall g :: g in groups && g.id != "" ==> GroupEntry(g) in stored)
    && (forall v :: v in stored ==> exists g :: g in groups && g.id != "" && v == GroupEntry(g))
  }

  function GroupEntry(g: Group): Value {
    Object(map["id" := Scalar(g.id), "display_name" := Scalar(if g.displayName != "" then g.displayName else g.id)])
  }

  lemma {:induction false} UsersStored(users: seq<string>)
    ensures StoresUsers(users, CleanUsers(users))
  {
    hide *;
    if users == [] {
      NoUsers();
    } else {
      var first, rest := users[0], users[1..];
      UsersStored(rest);
      FirstUser(first, rest);
      assert users == [first] + rest;
      OneMoreUser(first, rest, CleanUsers(rest), CleanUsers(users));
    }
  }

  lemma NoUsers()
    ensures StoresUsers([], CleanUsers([]))
  {}

  /** The entry of one user, if any. */
  lemma FirstUser(first: string, rest: seq<string>)
    ensures CleanUsers([first] + rest)
      == (if Blank(first) then [] else [Scalar(Lower(Trim(first)))]) + CleanUsers(rest)
    ensures LowerCased(Trim(first), Lower(Trim(first)))
  {
    hide *;
    TrimIsTrimmed(first);
    LowerIsLowerCased(Trim(first));
    FirstCleaned(first, rest);
  }

  lemma FirstCleaned(first: string, rest: seq<string>)
    ensures CleanUsers([first] + rest)
      == (if Trim(first) == "" then [] else [Scalar(Lower(Trim(first)))]) + CleanUsers(rest)
  {
    assert ([first] + rest)[1..] == rest && |Lower(Trim(first))| == |Trim(first)|;
    hide Trim, Lower;
  }

  lemma LowerIsLowerCased(text: string)
    ensures LowerCased(text, Lower(text))
  {}

  lemma OneMoreUser(first: string, rest: seq<string>, stored: seq<Value>, more: seq<Value>)
    requires StoresUsers(rest, stored) && LowerCased(Trim(first), Lower(Trim(first)))
    requires more == (if Blank(first) then [] else [Scalar(Lower(Trim(first)))]) + stored
    ensures StoresUsers([first] + rest, more)
  {
    hide Blank, Trim, Lower, LowerCased, UserEntry;
    FirstEntry(first);
    var users := [first] + rest;
    forall u | u in users && !Blank(u)
      ensures StoredFor(u, more)
    {
      if u in rest {
        assert StoredFor(u, stored);
        var v :| v in stored && UserEntry(u, v);
        assert v in more;
      } else {
        assert u == first && more[0] in more && UserEntry(u, more[0]);
      }
    }
    forall v | v in more
      ensures exists u :: u in users && !Blank(u) && UserEntry(u, v)
    {
      if v in stored {
        var u :| u in rest && !Blank(u) && UserEntry(u, v);
        assert u in users;
      } else {
        assert users[0] in users && !Blank(first) && UserEntry(first, v);
      }
    }
  }

  lemma FirstEntry(first: string)
    requires LowerCased(Trim(first), Lower(Trim(first)))
    ensures UserEntry(first, Scalar(Lower(Trim(first))))
  {
    hide Trim, Lower, LowerCased;
  }

  lemma {:induction false} GroupsStored(groups: seq<Group>)
    ensures StoresGroups(groups, CleanGroups(groups))
  {
    if groups == [] {
    } else {
      var first, rest := groups[0], groups[1..];
      GroupsStored(rest);
      assert CleanGroups(groups) == (if first.id == "" then [] else [GroupEntry(first)]) + CleanGroups(rest);
      assert groups == [first] + rest;
      hide *;
      OneMoreGroup(first, rest, CleanGroups(rest));
    }
  }

  lemma OneMoreGroup(first: Group, rest: seq<Group>, stored: seq<Value>)
    requires StoresGroups(rest, stored)
    ensures StoresGroups([first] + rest, (if first.id == "" then [] else [GroupEntry(first)]) + stored)
  {
    hide GroupEntry;
    var groups, more := [first] + rest, (if first.id == "" then [] else [GroupEntry(first)]) + stored;
    assert forall g :: g in groups <==> g == first || g in rest;
    forall v | v in more
      ensures exists g :: g in groups && g.id != "" && v == GroupEntry(g)
    {
      if v in stored {
        var g :| g in rest && g.id != "" && v == GroupEntry(g);
        assert g in groups;
      } else {
        assert first in groups && first.id != "" && v == GroupEntry(first);
      }
    }
    forall g | g in groups && g.id != ""
      ensures GroupEntry(g) in more
    {
      if g in rest {
        assert GroupEntry(g) in stored;
      } else {
        assert more[0] == GroupEntry(first);
      }
    }
  }

  /** What a connect that succeeded leaves in the document: the trimmed credentials of its body, and of the lists it
      supplied exactly the entries that are not blank. */
  lemma ConnectStores(env: Env, s: State, b: ConnectBody, probe: Probe, writable: bool)
    requires ConnectWrites(env, s, b, probe, writable)
    ensures var file := Step(env, s, Connect(b, probe, writable)).file;
      && file.Present?
      && AuthField(file.doc, "tenant_id") == Some(Scalar(Trim(b.tenantId)))
      && AuthField(file.doc, "client_id") == Some(Scalar(Trim(b.clientId)))
      && AuthField(file.doc, "client_secret") == Some(Scalar(Trim(b.clientSecret)))
      && (env.redirectUri != "" ==> AuthField(file.doc, "redirect_uri") == Some(Scalar(env.redirectUri)))
      && (if b.users == [] then AuthField(file.doc, "allowed_users") == AuthField(Documented(s.file), "allowed_users")
          else exists stored ::
            AuthField(file.doc, "allowed_users") == Some(List(stored)) && StoresUsers(b.users, stored))
      && (if b.groups == [] then
            AuthField(file.doc, "allowed_groups") == AuthField(Documented(s.file), "allowed_groups")
          else exists stored ::
            AuthField(file.doc, "allowed_groups") == Some(List(stored)) && StoresGroups(b.groups, stored))
  {
    OneMerge(Documented(s.file), FieldsOf(env, b), "");
    UsersStored(b.users);
    GroupsStored(b.groups);
    hide MergeEntraAuth, AuthField, Trim, CleanUsers, CleanGroups, StoresUsers, StoresGroups, ConnectWrites, Documented;
  }

  /** And the next start outside setup mode signs in with them, whatever the environment says. */
  lemma ConnectTakesEffect(env: Env, s: State, b: ConnectBody, probe: Probe, writable: bool)
    requires ConnectWrites(env, s, b, probe, writable) && !s.setupFlag && s.completeFlag
    ensures var c := Step(env, Step(env, s, Connect(b, probe, writable)), Restart).config;
      && !c.inSetupMode
      && c.tenantId == Trim(b.tenantId) != "" && c.clientId == Trim(b.clientId) != ""
      && c.clientSecret == Trim(b.clientSecret) != ""
  {
    ConnectStores(env, s, b, probe, writable);
    WritesOnlyComplete(env, s, b, probe, writable);
    hide *;
    var now := Step(env, s, Connect(b, probe, writable));
    FlagsKept(env, s, b, probe, writable);
    LoadedGiven(env, now);
  }

  lemma LoadedGiven(env: Env, s: State)
    ensures var c := Step(env, s, Restart).config;
      && (c.inSetupMode <==> s.setupFlag || !s.completeFlag)
      && (!c.inSetupMode ==>
            && (forall t :: t != "" && AuthField(Documented(s.file), "tenant_id") == Some(Scalar(t)) ==>
                  c.tenantId == t)
            && (forall t :: t != "" && AuthField(Documented(s.file), "client_id") == Some(Scalar(t)) ==>
                  c.clientId == t)
            && (forall t :: t != "" && AuthField(Documented(s.file), "client_secret") == Some(Scalar(t)) ==>
                  c.clientSecret == t))
  {
    LoadsCredentials(env, s);
    hide Step, AuthField, Documented;
  }

  lemma WritesOnlyComplete(env: Env, s: State, b: ConnectBody, probe: Probe, writable: bool)
    requires ConnectWrites(env, s, b, probe, writable)
    ensures Trim(b.tenantId) != "" && Trim(b.clientId) != "" && Trim(b.clientSecret) != ""
    ensures probe == Accepted && writable && !s.file.Corrupt? && !s.config.inSetupMode && s.config.isSandbox
  {
    hide Trim, GuardTrips;
  }

  lemma FlagsKept(env: Env, s: State, b: ConnectBody, probe: Probe, writable: bool)
    ensures var now := Step(env, s, Connect(b, probe, writable));
      now.setupFlag == s.setupFlag && now.completeFlag == s.completeFlag
  {
    hide ConnectWrites, MergeEntraAuth, FieldsOf;
  }

  /** The document gives a text that is not empty. */
  predicate Given(v: Option<Value>) {
    v.Some? && v.value.Scalar? && v.value.text != ""
  }

  /** Which credentials a start loads: in setup mode those of the environment; otherwise each one from the document
      where that gives it, and from the environment where it does not. */
  lemma LoadsCredentials(env: Env, s: State)
    ensures var c := Step(env, s, Restart).config;
      var tenant := AuthField(Documented(s.file), "tenant_id");
      var client := AuthField(Documented(s.file), "client_id");
      var secret := AuthField(Documented(s.file), "client_secret");
      && (c.inSetupMode <==> s.setupFlag || !s.completeFlag)
      && (c.tenantId == if !c.inSetupMode && Given(tenant) then tenant.value.text else env.tenantId)
      && (c.clientId == if !c.inSetupMode && Given(client) then client.value.text else env.clientId)
      && (c.clientSecret == if !c.inSetupMode && Given(secret) then secret.value.text else env.clientSecret)
  {
    NothingGiven("tenant_id");
    NothingGiven("client_id");
    NothingGiven("client_secret");
    hide AuthField, LocalAdminHash, IsProduction, Documented;
  }

  lemma NothingGiven(k: string)
    ensures AuthField(map[], k) == None
  {}

  /** What the wizard, or the text-mode setup, leaves: the sections of its form, the public URL and the upload limit,
      for a sandbox whose form gave a local password the account with the hash of that password, named admin unless the
      form says otherwise, and no other key of the document before. */
  lemma SetupStores(env: Env, s: State, e: Event)
    requires (e.Save? && e.session in s.verified && !e.writes.NothingWritten?) || (e.CliSetup? && !s.completeFlag)
    ensures var file := Step(env, s, e).file;
      && file.Present?
      && Top(file.doc, "auth") == Some(e.form.auth) && Top(file.doc, "targets") == Some(e.form.targets)
      && Top(file.doc, "notifications") == Some(e.form.notifications)
      && Field(Top(file.doc, "container"), "public_url") == Some(Scalar(e.form.publicUrl))
      && Field(Top(file.doc, "container"), "upload_max_bytes") == Some(Scalar(e.form.uploadMaxBytes))
      && file.doc.Keys <= {"auth", "targets", "notifications", "container", "sandbox"}
      && ("sandbox" in file.doc <==> e.Save? && s.config.isSandbox && e.form.localPassword != "")
      && ("sandbox" in file.doc ==> AdminIs(file.doc, e.form, env.hash))
  {
    hide LoadConfig;
    if e.Save? {
      FreshSections(e.form, s.config.isSandbox, env.hash);
    } else {
      FreshSections(e.form, false, env.hash);
    }
    hide FreshDoc, AdminIs, Top, Field;
  }

  predicate AdminIs(doc: Doc, form: SaveForm, hash: string -> string) {
    var admin := Field(Top(doc, "sandbox"), "local_admin");
    && Field(admin, "username") == Some(Scalar(if form.localUser != "" then form.localUser else "admin"))
    && Field(admin, "password_hash") == Some(Scalar(hash(form.localPassword)))
  }

  lemma FreshSections(form: SaveForm, sandbox: bool, hash: string -> string)
    ensures var doc := FreshDoc(form, sandbox, hash);
      && Top(doc, "auth") == Some(form.auth) && Top(doc, "targets") == Some(form.targets)
      && Top(doc, "notifications") == Some(form.notifications)
      && Field(Top(doc, "container"), "public_url") == Some(Scalar(form.publicUrl))
      && Field(Top(doc, "container"), "upload_max_bytes") == Some(Scalar(form.uploadMaxBytes))
      && doc.Keys <= {"auth", "targets", "notifications", "container", "sandbox"}
      && ("sandbox" in doc <==> sandbox && form.localPassword != "")
      && ("sandbox" in doc ==> AdminIs(doc, form, hash))
  {}
}
