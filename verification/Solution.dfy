/** solution.yaml as the server sees it, and the three functions that build or change it: mergeEntraAuth, the /confirm
    update and the setup wizard's fresh document. */
module Solution {
  import opened Prelude
  import opened Text

  datatype Value = Scalar(text: string) | List(items: seq<Value>) | Object(fields: map<string, Value>)

  type Doc = map<string, Value>

  /** `v?.k` */
  function Field(v: Option<Value>, k: string): Option<Value> {
    if v.Some? && v.value.Object? && k in v.value.fields then Some(v.value.fields[k]) else None
  }

  function Top(doc: Doc, k: string): Option<Value> {
    if k in doc then Some(doc[k]) else None
  }

  /** `... || ''` on a text field. */
  function TextOr(v: Option<Value>, fallback: string): string {
    if v.Some? && v.value.Scalar? && v.value.text != "" then v.value.text else fallback
  }

  /** The fields a spread of `v` copies; spreading anything but an object is not modelled. */
  function Spread(v: Option<Value>): map<string, Value> {
    if v.Some? && v.value.Object? then v.value.fields else map[]
  }

  /** toLowerCase, on ASCII letters. */
  function Lower(s: string): (t: string)
    ensures |t| == |s|
  {
    seq(|s|, i requires 0 <= i < |s| => if 'A' <= s[i] <= 'Z' then s[i] + ('a' - 'A') else s[i])
  }

  // ----- mergeEntraAuth

  datatype Group = Group(id: string, displayName: string)

  datatype EntraFields = EntraFields(tenantId: string, clientId: string, clientSecret: string, redirectUri: string,
                                     allowedUsers: seq<string>, allowedGroups: seq<Group>)

  /** `.map(s => s.trim().toLowerCase()).filter(Boolean)` */
  function CleanUsers(users: seq<string>): seq<Value> {
    if users == [] then [] else
      var u := Lower(Trim(users[0]));
      (if u == "" then [] else [Scalar(u)]) + CleanUsers(users[1..])
  }

  /** `.filter(g => g && g.id).map(...)` */
  function CleanGroups(groups: seq<Group>): seq<Value> {
    if groups == [] then [] else
      var g := groups[0];
      var name := if g.displayName == "" then g.id else g.displayName;
      (if g.id == "" then [] else [Object(map["id" := Scalar(g.id), "display_name" := Scalar(name)])])
      + CleanGroups(groups[1..])
  }

  function MergeEntraAuth(doc: Doc, f: EntraFields): Doc {
    var prev := Spread(Top(doc, "auth"));
    var redirect := if f.redirectUri != "" then f.redirectUri else TextOr(Field(Top(doc, "auth"), "redirect_uri"), "");
    var auth := prev + map["tenant_id" := Scalar(f.tenantId), "client_id" := Scalar(f.clientId),
                           "client_secret" := Scalar(f.clientSecret), "redirect_uri" := Scalar(redirect)];
    var users := if f.allowedUsers == [] then map[] else map["allowed_users" := List(CleanUsers(f.allowedUsers))];
    var groups := if f.allowedGroups == [] then map[] else map["allowed_groups" := List(CleanGroups(f.allowedGroups))];
    doc["auth" := Object(auth + users + groups)]
  }

  function MergeAll(doc: Doc, merges: seq<EntraFields>): Doc {
    if merges == [] then doc else MergeEntraAuth(MergeAll(doc, merges[..|merges| - 1]), merges[|merges| - 1])
  }

  /** The last merge that supplied users, or none. */
  function LastUsers(merges: seq<EntraFields>): Option<seq<string>> {
    if merges == [] then None
    else if merges[|merges| - 1].allowedUsers != [] then Some(merges[|merges| - 1].allowedUsers)
    else LastUsers(merges[..|merges| - 1])
  }

  function LastGroups(merges: seq<EntraFields>): Option<seq<Group>> {
    if merges == [] then None
    else if merges[|merges| - 1].allowedGroups != [] then Some(merges[|merges| - 1].allowedGroups)
    else LastGroups(merges[..|merges| - 1])
  }

  function AuthField(doc: Doc, k: string): Option<Value> {
    Field(Top(doc, "auth"), k)
  }

  const MERGED_FIELDS := {"tenant_id", "client_id", "client_secret", "redirect_uri", "allowed_users", "allowed_groups"}

  /** What one merge does to each auth field and each top-level key. */
  lemma OneMerge(doc: Doc, f: EntraFields, k: string)
    ensures var merged := MergeEntraAuth(doc, f);
      && AuthField(merged, "tenant_id") == Some(Scalar(f.tenantId))
      && AuthField(merged, "client_id") == Some(Scalar(f.clientId))
      && AuthField(merged, "client_secret") == Some(Scalar(f.clientSecret))
      && (f.redirectUri != "" ==> AuthField(merged, "redirect_uri") == Some(Scalar(f.redirectUri)))
      && AuthField(merged, "allowed_users")
         == (if f.allowedUsers == [] then AuthField(doc, "allowed_users") else Some(List(CleanUsers(f.allowedUsers))))
      && AuthField(merged, "allowed_groups")
         == (if f.allowedGroups == [] then AuthField(doc, "allowed_groups")
             else Some(List(CleanGroups(f.allowedGroups))))
      && (k !in MERGED_FIELDS ==> AuthField(merged, k) == AuthField(doc, k))
      && (k != "auth" ==> Top(merged, k) == Top(doc, k))
  {
    MergedField(doc, f, "tenant_id");
    MergedField(doc, f, "client_id");
    MergedField(doc, f, "client_secret");
    MergedField(doc, f, "redirect_uri");
    MergedField(doc, f, "allowed_users");
    MergedField(doc, f, "allowed_groups");
    MergedField(doc, f, k);
    hide CleanUsers, CleanGroups, TextOr, AuthField;
  }

  /** Where one auth field comes from after a merge. */
  lemma MergedField(doc: Doc, f: EntraFields, k: string)
    ensures AuthField(MergeEntraAuth(doc, f), k) ==
      if k == "allowed_groups" && f.allowedGroups != [] then Some(List(CleanGroups(f.allowedGroups)))
      else if k == "allowed_users" && f.allowedUsers != [] then Some(List(CleanUsers(f.allowedUsers)))
      else if k == "tenant_id" then Some(Scalar(f.tenantId))
      else if k == "client_id" then Some(Scalar(f.clientId))
      else if k == "client_secret" then Some(Scalar(f.clientSecret))
      else if k == "redirect_uri" then
        Some(Scalar(if f.redirectUri != "" then f.redirectUri else TextOr(AuthField(doc, "redirect_uri"), "")))
      else AuthField(doc, k)
  {
    hide CleanUsers, CleanGroups, TextOr;
  }

  /** However often Entra is connected: the last credentials stand, each allow-list is the cleaned form of the last one
      supplied non-empty (or what was there before), every other auth field and every other top-level key stays. */
  lemma {:induction false} LastMergeWins(doc: Doc, merges: seq<EntraFields>, k: string)
    ensures var merged := MergeAll(doc, merges);
      && (merges != [] ==>
            var last := merges[|merges| - 1];
            && AuthField(merged, "tenant_id") == Some(Scalar(last.tenantId))
            && AuthField(merged, "client_id") == Some(Scalar(last.clientId))
            && AuthField(merged, "client_secret") == Some(Scalar(last.clientSecret))
            && (last.redirectUri != "" ==> AuthField(merged, "redirect_uri") == Some(Scalar(last.redirectUri))))
      && AuthField(merged, "allowed_users")
         == (if LastUsers(merges).None? then AuthField(doc, "allowed_users")
             else Some(List(CleanUsers(LastUsers(merges).value))))
      && AuthField(merged, "allowed_groups")
         == (if LastGroups(merges).None? then AuthField(doc, "allowed_groups")
             else Some(List(CleanGroups(LastGroups(merges).value))))
      && (k !in MERGED_FIELDS ==> AuthField(merged, k) == AuthField(doc, k))
      && (k != "auth" ==> Top(merged, k) == Top(doc, k))
  {
    if merges == [] {
    } else {
      var init, last := merges[..|merges| - 1], merges[|merges| - 1];
      LastMergeWins(doc, init, k);
      OneMerge(MergeAll(doc, init), last, k);
      hide CleanUsers, CleanGroups, TextOr, AuthField, Top, MergeEntraAuth, MERGED_FIELDS;
    }
  }

  /** A supplied list of users leaves an empty allow-list exactly when all its entries are blank. */
  lemma BlankUsersClearTheList(doc: Doc, f: EntraFields)
    requires f.allowedUsers != []
    ensures AuthField(MergeEntraAuth(doc, f), "allowed_users") == Some(List([]))
      <==> AllBlank(f.allowedUsers)
  {
    OneMerge(doc, f, "");
    hide *;
    NoUsersIff(f.allowedUsers);
  }

  ghost predicate AllBlank(users: seq<string>) {
    forall u :: u in users ==> Blank(u)
  }

  lemma {:induction false} NoUsersIff(users: seq<string>)
    ensures CleanUsers(users) == [] <==> AllBlank(users)
  {
    if users == [] {
    } else {
      KeptIff(users[0], users[1..]);
      BlankRest(users);
      hide *;
      NoUsersIff(users[1..]);
    }
  }

  lemma BlankRest(users: seq<string>)
    requires users != []
    ensures AllBlank(users) <==> Blank(users[0]) && AllBlank(users[1..])
    ensures users == [users[0]] + users[1..]
  {
    assert forall u :: u in users ==> u == users[0] || u in users[1..];
    hide Blank;
  }

  lemma KeptIff(user: string, rest: seq<string>)
    ensures CleanUsers([user] + rest) == [] <==> Blank(user) && CleanUsers(rest) == []
  {
    OneUser(user, rest);
    hide *;
    TrimIsTrimmed(user);
    assert |Lower(Trim(user))| == |Trim(user)|;
  }

  lemma OneUser(user: string, rest: seq<string>)
    ensures CleanUsers([user] + rest) == [] <==> Lower(Trim(user)) == "" && CleanUsers(rest) == []
  {
    assert ([user] + rest)[1..] == rest;
    hide Trim, Lower;
  }

  // ----- /confirm

  /** String(v); a list within a list is joined by commas. */
  function StringOf(v: Value): string {
    match v
    case Scalar(text) => text
    case List(items) => Join(Strings(items), ",")
    case Object(_) => "[object Object]"
  }

  function Strings(vs: seq<Value>): (ss: seq<string>)
    ensures |ss| == |vs|
    ensures forall i :: 0 <= i < |vs| ==> ss[i] == StringOf(vs[i])
  {
    seq(|vs|, i requires 0 <= i < |vs| => StringOf(vs[i]))
  }

  /** `new Set(list)` in insertion order. */
  function Dedupe(ss: seq<string>): (out: seq<string>)
    ensures forall s :: s in out <==> s in ss
    ensures forall i, j :: 0 <= i < j < |out| ==> out[i] != out[j]
  {
    if ss == [] then [] else
      var out, last := Dedupe(ss[..|ss| - 1]), ss[|ss| - 1];
      assert ss == ss[..|ss| - 1] + [last];
      if last in out then out else out + [last]
  }

  function Removing(ss: seq<string>, x: string): (out: seq<string>)
    ensures forall s :: s in out <==> s in ss && s != x
  {
    if ss == [] then [] else (if ss[0] == x then [] else [ss[0]]) + Removing(ss[1..], x)
  }

  /** The operator's confirmations in insertion order. */
  function Confirmed(doc: Doc): seq<string> {
    var c := Field(Top(doc, "graduation"), "confirmed");
    if c.Some? && c.value.List? then Dedupe(Strings(c.value.items)) else []
  }

  function Scalars(ss: seq<string>): (vs: seq<Value>)
    ensures |vs| == |ss|
    ensures forall i :: 0 <= i < |ss| ==> vs[i] == Scalar(ss[i])
  {
    seq(|ss|, i requires 0 <= i < |ss| => Scalar(ss[i]))
  }

  function Updated(was: seq<string>, key: string, on: bool): (now: seq<string>)
    ensures forall k :: k in now <==> if k == key then on else k in was
  {
    if !on then Removing(was, key) else if key in was then was else was + [key]
  }

  function ConfirmUpdate(doc: Doc, key: string, on: bool): Doc {
    var now := Updated(Confirmed(doc), key, on);
    doc["graduation" := Object(Spread(Top(doc, "graduation"))["confirmed" := List(Scalars(now))])]
  }

  /** The confirmations after an update are the list that was written, once each. */
  lemma ListedIsConfirmed(doc: Doc, listed: seq<string>)
    ensures
      var written := doc["graduation" := Object(Spread(Top(doc, "graduation"))["confirmed" := List(Scalars(listed))])];
      && Confirmed(written) == Dedupe(listed)
      && forall k :: k != "graduation" ==> Top(written, k) == Top(doc, k)
  {
    assert Strings(Scalars(listed)) == listed;
    hide Dedupe, Scalars, Strings;
  }

  predicate Different(ss: seq<string>) {
    forall i, j :: 0 <= i < j < |ss| ==> ss[i] != ss[j]
  }

  lemma {:induction false} NothingDeduped(ss: seq<string>)
    requires Different(ss)
    ensures Dedupe(ss) == ss
  {
    if ss == [] {
    } else {
      NothingDeduped(ss[..|ss| - 1]);
      assert ss == ss[..|ss| - 1] + [ss[|ss| - 1]];
    }
  }

  lemma {:induction false} RemovingKeepsDifferent(ss: seq<string>, x: string)
    requires Different(ss)
    ensures Different(Removing(ss, x))
  {
    if ss == [] {
    } else {
      RemovingKeepsDifferent(ss[1..], x);
      assert ss[0] !in ss[1..];
    }
  }

  lemma UpdatedIsDifferent(was: seq<string>, key: string, on: bool)
    requires Different(was)
    ensures Different(Updated(was, key, on))
  {
    RemovingKeepsDifferent(was, key);
    hide Removing;
  }

  lemma ConfirmedIsDifferent(doc: Doc)
    ensures Different(Confirmed(doc))
  {
    hide Dedupe, Strings, Field, Top;
  }

  /** A confirmation sets or clears exactly its own key, and stores every confirmed key once. */
  lemma ConfirmSetsOneKey(doc: Doc, key: string, on: bool)
    ensures var now := ConfirmUpdate(doc, key, on);
      && (forall k :: k in Confirmed(now) <==> if k == key then on else k in Confirmed(doc))
      && Field(Top(now, "graduation"), "confirmed") == Some(List(Scalars(Confirmed(now))))
      && (forall k :: k != "graduation" ==> Top(now, k) == Top(doc, k))
  {
    var listed := Updated(Confirmed(doc), key, on);
    ConfirmedIsDifferent(doc);
    UpdatedIsDifferent(Confirmed(doc), key, on);
    NothingDeduped(listed);
    hide Confirmed, Dedupe, Updated, Spread, Scalars, Different;
    ListedIsConfirmed(doc, listed);
  }

  // ----- /save

  datatype SaveForm = SaveForm(auth: Value, targets: Value, notifications: Value, publicUrl: string,
                               uploadMaxBytes: string, localUser: string, localPassword: string)

  /** The document the wizard writes: built from the form alone. */
  function FreshDoc(form: SaveForm, sandbox: bool, hash: string -> string): Doc {
    var base := map["auth" := form.auth, "targets" := form.targets, "notifications" := form.notifications,
                    "container" := Object(map["public_url" := Scalar(form.publicUrl),
                                              "upload_max_bytes" := Scalar(form.uploadMaxBytes)])];
    if sandbox && form.localPassword != "" then
      var user := if form.localUser == "" then "admin" else form.localUser;
      base["sandbox" := Object(map["local_admin" := Object(map["username" := Scalar(user),
                                                               "password_hash" := Scalar(hash(form.localPassword))])])]
    else base
  }

  // ----- The settings save of the admin surface

  /** What the Settings tab may send: whole sections, and the target fields by their form names. */
  datatype SettingsForm = SettingsForm(auth: Option<Value>, target: Option<map<string, string>>, smtp: Option<Value>,
                                       container: Option<Value>)

  const SETTINGS_KEYS := {"auth", "targets", "notifications", "container"}

  const TARGET_FIELDS := {"gitea_base_url", "gitea_repo", "gitea_pat", "gitea_user", "gitea_branch",
                          "gitea_author_email", "installer_base_url", "rewinged_url", "manifest_mount_path"}

  /** The form calls one of them by another name. */
  function FormName(field: string): string {
    if field == "gitea_base_url" then "gitea_url" else field
  }

  function TargetFields(target: map<string, string>): map<string, Value> {
    map field | field in TARGET_FIELDS && FormName(field) in target :: Scalar(target[FormName(field)])
  }

  function MergeSection(doc: Doc, key: string, section: Option<Value>): Doc {
    if section.Some? then doc[key := section.value] else doc
  }

  function MergeTarget(doc: Doc, target: Option<map<string, string>>): Doc {
    if target.None? then doc else doc["targets" := Object(Spread(Top(doc, "targets")) + TargetFields(target.value))]
  }

  function MergeSmtp(doc: Doc, smtp: Option<Value>): Doc {
    if smtp.None? then doc
    else doc["notifications" := Object(Spread(Top(doc, "notifications"))["smtp" := smtp.value])]
  }

  /** PUT /api/config on solution.yaml: whatever the form does not mention is carried over. */
  function MergeSettings(doc: Doc, f: SettingsForm): Doc {
    MergeSection(MergeSmtp(MergeTarget(MergeSection(doc, "auth", f.auth), f.target), f.smtp), "container", f.container)
  }

  function MergeAllSettings(doc: Doc, forms: seq<SettingsForm>): Doc {
    if forms == [] then doc else MergeSettings(MergeAllSettings(doc, forms[..|forms| - 1]), forms[|forms| - 1])
  }

  /** Nine fields are taken over where the form has them, the Gitea URL from its own name in the form. */
  function Supplied(target: map<string, string>, k: string): Option<Value> {
    if k == "gitea_base_url" then
      if "gitea_url" in target then Some(Scalar(target["gitea_url"])) else None
    else if k in target &&
      (k == "gitea_repo" || k == "gitea_pat" || k == "gitea_user" || k == "gitea_branch" || k == "gitea_author_email"
       || k == "installer_base_url" || k == "rewinged_url" || k == "manifest_mount_path")
    then Some(Scalar(target[k]))
    else None
  }

  function TargetField(doc: Doc, target: Option<map<string, string>>, k: string): Option<Value> {
    if target.Some? && Supplied(target.value, k).Some? then Supplied(target.value, k)
    else Field(Top(doc, "targets"), k)
  }

  lemma TargetFieldsSupplied(target: map<string, string>, k: string)
    ensures Supplied(target, k) == if k in TargetFields(target) then Some(TargetFields(target)[k]) else None
  {}

  lemma TargetEffect(doc: Doc, target: Option<map<string, string>>, k: string)
    ensures k != "targets" ==> Top(MergeTarget(doc, target), k) == Top(doc, k)
    ensures Field(Top(MergeTarget(doc, target), "targets"), k) == TargetField(doc, target, k)
  {
    if target.Some? {
      TargetFieldsSupplied(target.value, k);
    }
    hide TargetFields, Supplied;
  }

  function SmtpField(doc: Doc, smtp: Option<Value>, k: string): Option<Value> {
    if smtp.Some? && k == "smtp" then smtp else Field(Top(doc, "notifications"), k)
  }

  lemma SmtpEffect(doc: Doc, smtp: Option<Value>, k: string)
    ensures k != "notifications" ==> Top(MergeSmtp(doc, smtp), k) == Top(doc, k)
    ensures Field(Top(MergeSmtp(doc, smtp), "notifications"), k) == SmtpField(doc, smtp, k)
  {}

  lemma SectionEffect(doc: Doc, key: string, section: Option<Value>, k: string)
    ensures Top(MergeSection(doc, key, section), k) == if k == key && section.Some? then section else Top(doc, k)
  {}

  /** A key through all four merges. */
  lemma SettingsTop(doc: Doc, f: SettingsForm, k: string)
    ensures var after, before := MergeSettings(doc, f), MergeSection(doc, "auth", f.auth);
      && (k != "targets" && k != "notifications" && k != "container" ==> Top(after, k) == Top(before, k))
      && (k == "targets" ==> Top(after, k) == Top(MergeTarget(before, f.target), k))
      && (k == "notifications" ==> Top(after, k) == Top(MergeSmtp(MergeTarget(before, f.target), f.smtp), k))
      && (k == "container" ==> Top(after, k) == if f.container.Some? then f.container else Top(before, k))
  {
    var d1 := MergeSection(doc, "auth", f.auth);
    var d2 := MergeTarget(d1, f.target);
    var d3 := MergeSmtp(d2, f.smtp);
    TargetEffect(d1, f.target, k);
    SmtpEffect(d2, f.smtp, k);
    SectionEffect(d3, "container", f.container, k);
    hide MergeSection, MergeTarget, MergeSmtp, Top, Field;
  }

  /** What a settings save does to each key: `auth` and `container` are replaced as a whole when the form has them, the
      supplied target fields and the SMTP section one by one, and nothing else changes. */
  lemma SettingsEffect(doc: Doc, f: SettingsForm, k: string)
    ensures var after := MergeSettings(doc, f);
      && Top(after, "auth") == (if f.auth.Some? then f.auth else Top(doc, "auth"))
      && Top(after, "container") == (if f.container.Some? then f.container else Top(doc, "container"))
      && Field(Top(after, "targets"), k) == TargetField(doc, f.target, k)
      && Field(Top(after, "notifications"), k) == SmtpField(doc, f.smtp, k)
      && (k !in SETTINGS_KEYS ==> Top(after, k) == Top(doc, k))
  {
    var d1 := MergeSection(doc, "auth", f.auth);
    SettingsTop(doc, f, "auth");
    SettingsTop(doc, f, "container");
    SettingsTop(doc, f, k);
    SectionEffect(doc, "auth", f.auth, "auth");
    SectionEffect(doc, "auth", f.auth, "container");
    SectionEffect(doc, "auth", f.auth, k);
    SettingsTargets(doc, f, k);
    hide MergeSettings, MergeSection, MergeTarget, MergeSmtp, Top, Field, TargetField, SmtpField;
  }

  lemma SettingsTargets(doc: Doc, f: SettingsForm, k: string)
    ensures Field(Top(MergeSettings(doc, f), "targets"), k) == TargetField(doc, f.target, k)
    ensures Field(Top(MergeSettings(doc, f), "notifications"), k) == SmtpField(doc, f.smtp, k)
  {
    var d1 := MergeSection(doc, "auth", f.auth);
    var d2 := MergeTarget(d1, f.target);
    SettingsTop(doc, f, "targets");
    SettingsTop(doc, f, "notifications");
    TargetEffect(d1, f.target, k);
    TargetEffect(d1, f.target, "notifications");
    SmtpEffect(d2, f.smtp, k);
    SectionEffect(doc, "auth", f.auth, "targets");
    SectionEffect(doc, "auth", f.auth, "notifications");
    hide MergeSettings, MergeSection, MergeTarget, MergeSmtp, Top, Field, Supplied, TargetFields;
  }

  function LocalAdminHash(doc: Doc): string {
    TextOr(Field(Field(Top(doc, "sandbox"), "local_admin"), "password_hash"), "")
  }

  predicate IsProduction(doc: Doc) {
    Top(doc, "deployment_profile") == Some(Scalar("production"))
  }

  // What a form supplies.

  function AuthOf(f: SettingsForm): Option<Value> { f.auth }

  function ContainerOf(f: SettingsForm): Option<Value> { f.container }

  function SmtpOf(f: SettingsForm): Option<Value> { f.smtp }

  function TargetOf(k: string): SettingsForm -> Option<Value> {
    (f: SettingsForm) => if f.target.Some? then Supplied(f.target.value, k) else None
  }

  /** The last form that supplied it, or what was there before. */
  function LastSupplied(forms: seq<SettingsForm>, supplied: SettingsForm -> Option<Value>, before: Option<Value>)
    : Option<Value>
  {
    if forms == [] then before
    else if supplied(forms[|forms| - 1]).Some? then supplied(forms[|forms| - 1])
    else LastSupplied(forms[..|forms| - 1], supplied, before)
  }

  /** After any number of settings saves: `auth`, `container`, the SMTP section and each target field are the last ones
      supplied, or what was there before, and everything else is as it was. */
  lemma {:induction false} LastSettingsWin(doc: Doc, forms: seq<SettingsForm>, k: string)
    ensures var now := MergeAllSettings(doc, forms);
      && Top(now, "auth") == LastSupplied(forms, AuthOf, Top(doc, "auth"))
      && Top(now, "container") == LastSupplied(forms, ContainerOf, Top(doc, "container"))
      && Field(Top(now, "targets"), k) == LastSupplied(forms, TargetOf(k), Field(Top(doc, "targets"), k))
      && Field(Top(now, "notifications"), k)
         == (if k == "smtp" then LastSupplied(forms, SmtpOf, Field(Top(doc, "notifications"), k))
             else Field(Top(doc, "notifications"), k))
      && (k !in SETTINGS_KEYS ==> Top(now, k) == Top(doc, k))
  {
    if forms == [] {
    } else {
      var init, last := forms[..|forms| - 1], forms[|forms| - 1];
      LastSettingsWin(doc, init, k);
      SettingsEffect(MergeAllSettings(doc, init), last, k);
      SuppliedTarget(MergeAllSettings(doc, init), last, k);
      hide Top, Field, MergeSettings, TargetField, TargetOf, SETTINGS_KEYS;
    }
  }

  lemma SuppliedTarget(doc: Doc, f: SettingsForm, k: string)
    ensures TargetField(doc, f.target, k)
      == if TargetOf(k)(f).Some? then TargetOf(k)(f) else Field(Top(doc, "targets"), k)
  {
    hide Supplied, Field, Top;
  }
}
