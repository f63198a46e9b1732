/** When saving an untouched edit page returns the manifest that filled it, and what it changes otherwise. */
module EditPageLaws {
  import opened Prelude
  import opened Text
  import opened EditForm
  import opened EditFormRoundTrip
  import opened ManifestForms
  import opened EditPage

  /** Every value has the type its control expects. */
  ghost predicate WellTyped(m: Manifest) {
    && (forall f :: f in m.identity ==> Typed(IdentityControl(f).kind, m.identity[f]))
    && (forall f :: f in m.locale ==> Typed(LocaleControl(f).kind, m.locale[f]))
    && forall i :: 0 <= i < |m.installers| ==> WellTypedEntry(m.installers[i])
  }

  ghost predicate WellTypedEntry(e: Entry) {
    forall f :: f in e.fields ==> Typed(InstallerControl(f).kind, e.fields[f])
  }

  lemma Controls(i: IdentityField, f: InstallerField, g: LocaleField)
    ensures i in IdentityLayout().names && f in CardLayout().names && g in LocaleLayout().names
    ensures IdentityLayout().control(i) == IdentityControl(i) && WellFormed(IdentityControl(i))
    ensures CardLayout().control(f) == InstallerControl(f) && WellFormed(InstallerControl(f))
    ensures LocaleLayout().control(g) == LocaleControl(g) && WellFormed(LocaleControl(g))
  {
    EveryFieldIsThere(i, f, g);
    ControlsAreWellFormed(i, f, g);
    hide IdentityControl, InstallerControl, LocaleControl, WellFormed;
  }

  lemma EntryFits(e: Entry)
    requires WellTypedEntry(e)
    ensures Typable(CardLayout(), e.fields)
  {
    hide CardLayout, InstallerControl, WellFormed, Typed;
    forall f
      ensures f in CardLayout().names && CardLayout().control(f) == InstallerControl(f)
      ensures WellFormed(InstallerControl(f))
    {
      Controls(PackageVersion, f, Publisher);
    }
  }

  lemma PageFits(m: Manifest)
    requires WellTyped(m)
    ensures Typable(IdentityLayout(), m.identity) && Typable(LocaleLayout(), m.locale)
  {
    hide IdentityLayout, LocaleLayout, CardLayout, IdentityControl, LocaleControl, WellFormed, Typed, WellTypedEntry;
    forall f
      ensures f in IdentityLayout().names && IdentityLayout().control(f) == IdentityControl(f)
      ensures WellFormed(IdentityControl(f))
    {
      Controls(f, Scope, Publisher);
    }
    forall f
      ensures f in LocaleLayout().names && LocaleLayout().control(f) == LocaleControl(f)
      ensures WellFormed(LocaleControl(f))
    {
      Controls(PackageVersion, Scope, f);
    }
  }

  /** One field of one installer comes back, or stays absent, exactly when it survives its control. */
  lemma FieldComesBackIff(codec: Codec, editing: bool, e: Entry, f: InstallerField)
    requires Faithful(codec) && WellTypedEntry(e)
    ensures Get(RebuiltEntry(codec, editing, e).fields, f) == Get(e.fields, f)
      <==> Survives(InstallerControl(f), Get(e.fields, f))
  {
    hide *;
    Controls(PackageVersion, f, Publisher);
    RebuiltField(codec, editing, e, f);
    TypedField(e, f);
    SurvivesIff(codec, InstallerControl(f), Get(e.fields, f));
  }

  lemma TypedField(e: Entry, f: InstallerField)
    requires WellTypedEntry(e)
    ensures Get(e.fields, f).Some? ==> Typed(InstallerControl(f).kind, Get(e.fields, f).value)
  {
    hide InstallerControl, Typed;
  }

  lemma RebuiltField(codec: Codec, editing: bool, e: Entry, f: InstallerField)
    requires f in CardLayout().names && CardLayout().control(f) == InstallerControl(f)
    ensures var c := InstallerControl(f);
      Get(RebuiltEntry(codec, editing, e).fields, f) == Read(codec, c.kind, Shown(codec, c, Get(e.fields, f)))
  {
    hide CardLayout, InstallerControl, Read, Shown;
  }

  function Placeholder(): string {
    "https:/" + "/installer-url-rewritten-on-publish.invalid/file"
  }

  /** The digest is echoed, and in edit mode so is the URL. */
  lemma IdentityOfTheBinary(codec: Codec, editing: bool, e: Entry)
    ensures RebuiltEntry(codec, editing, e).sha256 == e.sha256
    ensures RebuiltEntry(codec, editing, e).url ==
      if editing && e.url != "" then e.url else Placeholder()
  {
    assert Placeholder() != "";
    hide Filled, Payload;
  }

  lemma RebuiltInstallers(codec: Codec, editing: bool, m: Manifest)
    ensures Rebuilt(codec, editing, m).installers == RebuiltEntries(codec, editing, m.installers)
  {
    hide Payload, Filled, Trim, OneLine, IdentityLayout, LocaleLayout, RebuiltEntries, OrEnglish;
  }

  /** Saving keeps the installers, their order and their digests, and in edit mode the URLs they had; any other URL is
      the placeholder that publishing rewrites. */
  lemma BinariesKept(codec: Codec, editing: bool, m: Manifest)
    ensures var now := Rebuilt(codec, editing, m).installers;
      && |now| == |m.installers|
      && forall i :: 0 <= i < |now| ==>
           && now[i].sha256 == m.installers[i].sha256
           && now[i].url == if editing && m.installers[i].url != "" then m.installers[i].url else Placeholder()
  {
    hide *;
    RebuiltInstallers(codec, editing, m);
    forall i | 0 <= i < |m.installers|
      ensures RebuiltEntry(codec, editing, m.installers[i]).sha256 == m.installers[i].sha256
      ensures RebuiltEntry(codec, editing, m.installers[i]).url
        == if editing && m.installers[i].url != "" then m.installers[i].url else Placeholder()
    {
      IdentityOfTheBinary(codec, editing, m.installers[i]);
    }
  }

  lemma EntryRoundTrip(codec: Codec, e: Entry)
    requires Faithful(codec) && Typable(CardLayout(), e.fields)
    ensures RebuiltEntry(codec, true, e) == e <==> AllSurvive(CardLayout(), e.fields) && e.url != ""
  {
    FormRoundTrip(codec, CardLayout(), e.fields);
    IdentityOfTheBinary(codec, true, e);
    hide Filled, Payload, AllSurvive, CardLayout;
  }

  lemma English()
    ensures OrEnglish("") == "en-US" && CleanText(Line, "en-US")
  {}

  lemma CleanLine(s: string)
    ensures CleanText(Line, s) <==> s != "" && Trim(OneLine(s)) == s
  {
    LineText(s);
    hide Trim, OneLine, Trimmed, Without;
  }

  lemma LanguageRoundTrip(s: string)
    ensures OrEnglish(Trim(OneLine(OrEnglish(s)))) == s <==> CleanText(Line, s)
  {
    English();
    CleanLine(s);
    CleanLine("en-US");
    hide Trim, OneLine, CleanText;
  }

  predicate EntrySurvives(e: Entry) {
    AllSurvive(CardLayout(), e.fields) && e.url != ""
  }

  /** In edit mode the whole manifest comes back exactly when every value survives its control, every installer has a
      URL, and the two manifests name one default locale. */
  lemma ManifestRoundTrip(codec: Codec, m: Manifest)
    requires Faithful(codec) && WellTyped(m)
    ensures Rebuilt(codec, true, m) == m <==>
      && AllSurvive(IdentityLayout(), m.identity) && AllSurvive(LocaleLayout(), m.locale)
      && CleanText(Line, m.defaultLocale) && m.packageLocale == m.defaultLocale
      && forall i :: 0 <= i < |m.installers| ==> EntrySurvives(m.installers[i])
  {
    PageFits(m);
    EntriesComeBackIff(codec, m);
    hide *;
    FormRoundTrip(codec, IdentityLayout(), m.identity);
    FormRoundTrip(codec, LocaleLayout(), m.locale);
    LanguageRoundTrip(m.defaultLocale);
    RebuiltParts(codec, m);
  }

  lemma EntriesComeBackIff(codec: Codec, m: Manifest)
    requires Faithful(codec) && WellTyped(m)
    ensures RebuiltEntries(codec, true, m.installers) == m.installers
      <==> forall i :: 0 <= i < |m.installers| ==> EntrySurvives(m.installers[i])
  {
    hide *;
    forall i | 0 <= i < |m.installers|
      ensures RebuiltEntry(codec, true, m.installers[i]) == m.installers[i] <==> EntrySurvives(m.installers[i])
    {
      EntryIsTyped(m, i);
      EntryComesBackIff(codec, m.installers[i]);
    }
    EntriesSame(codec, m.installers);
  }

  lemma EntryIsTyped(m: Manifest, i: nat)
    requires WellTyped(m) && i < |m.installers|
    ensures WellTypedEntry(m.installers[i])
  {
    hide WellTypedEntry, Typed, IdentityControl, LocaleControl;
  }

  lemma EntryComesBackIff(codec: Codec, e: Entry)
    requires Faithful(codec) && WellTypedEntry(e)
    ensures RebuiltEntry(codec, true, e) == e <==> EntrySurvives(e)
  {
    EntryFits(e);
    EntryRoundTrip(codec, e);
    hide RebuiltEntry, AllSurvive, CardLayout, WellTypedEntry;
  }

  lemma EntriesSame(codec: Codec, entries: seq<Entry>)
    ensures RebuiltEntries(codec, true, entries) == entries
      <==> forall i :: 0 <= i < |entries| ==> RebuiltEntry(codec, true, entries[i]) == entries[i]
  {
    hide RebuiltEntry;
    var back := RebuiltEntries(codec, true, entries);
    if forall i :: 0 <= i < |entries| ==> RebuiltEntry(codec, true, entries[i]) == entries[i] {
      assert back == entries;
    } else {
      var i :| 0 <= i < |entries| && RebuiltEntry(codec, true, entries[i]) != entries[i];
      assert back[i] != entries[i];
    }
  }

  lemma RebuiltParts(codec: Codec, m: Manifest)
    ensures var language := OrEnglish(Trim(OneLine(OrEnglish(m.defaultLocale))));
      Rebuilt(codec, true, m) == m <==>
        && Payload(codec, IdentityLayout(), Filled(codec, IdentityLayout(), m.identity)) == m.identity
        && Payload(codec, LocaleLayout(), Filled(codec, LocaleLayout(), m.locale)) == m.locale
        && language == m.defaultLocale && language == m.packageLocale
        && RebuiltEntries(codec, true, m.installers) == m.installers
  {
    hide Payload, Filled, OrEnglish, Trim, OneLine, RebuiltEntries, IdentityLayout, LocaleLayout;
  }

  /** The installer fields that the page has but edit mode does not fill. */
  predicate Lost(f: InstallerField) {
    f in {ReleaseDate, ElevationRequirement, UnsupportedArguments, UnsupportedOSArchitectures, NestedInstallerType,
          NestedInstallerFiles, Markets}
  }

  /** So an untouched save drops those seven, and adds a scope and a locale where the manifest had none. */
  lemma UntouchedSaveDrops(codec: Codec, editing: bool, e: Entry, f: InstallerField)
    requires Faithful(codec) && WellTypedEntry(e) && Lost(f)
    ensures Get(RebuiltEntry(codec, editing, e).fields, f) == Get(e.fields, f) <==> Get(e.fields, f) == None
  {
    hide *;
    LostControl(f);
    FieldComesBackIff(codec, editing, e, f);
    UnfilledSurvives(InstallerControl(f), Get(e.fields, f));
  }

  lemma LostControl(f: InstallerField)
    ensures Lost(f) <==> !InstallerControl(f).populated
    ensures Lost(f) ==> InstallerControl(f).initial == "" && !InstallerControl(f).kind.Mandatory?
  {}

  lemma UnfilledSurvives(c: Control, v: Option<Value>)
    requires !c.populated && c.initial == "" && !c.kind.Mandatory?
    ensures Survives(c, v) <==> v == None
  {}

  lemma UntouchedSaveAdds(codec: Codec, editing: bool, e: Entry, f: InstallerField)
    requires Faithful(codec) && WellTypedEntry(e) && Get(e.fields, f) == None
    ensures Get(RebuiltEntry(codec, editing, e).fields, f) ==
      (if f == Scope then Some(Text("machine")) else if f == InstallerLocale then Some(Text("en-US")) else None)
  {
    hide *;
    Controls(PackageVersion, f, Publisher);
    RebuiltField(codec, editing, e, f);
    if f == Scope {
      ScopeDefault(codec);
    } else if f == InstallerLocale {
      LocaleDefault(codec);
    } else {
      EmptyAtFirst(f);
      FieldComesBackIff(codec, editing, e, f);
      AbsentSurvives(InstallerControl(f));
    }
  }

  lemma AbsentSurvives(c: Control)
    requires c.initial == "" && !c.kind.Mandatory?
    ensures Survives(c, None)
  {}

  lemma EmptyAtFirst(f: InstallerField)
    requires f != Scope && f != InstallerLocale
    ensures InstallerControl(f).initial == "" && !InstallerControl(f).kind.Mandatory?
  {}

  lemma ScopeDefault(codec: Codec)
    ensures var c := InstallerControl(Scope); Read(codec, c.kind, Shown(codec, c, None)) == Some(Text("machine"))
  {
    var c := InstallerControl(Scope);
    assert c.kind.Choice? && c.initial == "machine" && Trimmed(c.initial);
    hide *;
    ReadsInitial(codec, c);
  }

  lemma LocaleDefault(codec: Codec)
    ensures var c := InstallerControl(InstallerLocale);
      Read(codec, c.kind, Shown(codec, c, None)) == Some(Text("en-US"))
  {
    var c := InstallerControl(InstallerLocale);
    assert c.kind.Line? && c.initial == "en-US" && Trimmed(c.initial);
    hide *;
    ReadsInitial(codec, c);
  }

  // ----- What single controls take

  /** The values that the four selects which edit mode fills offer. */
  predicate Offered(f: InstallerField, t: string) {
    match f
    case Architecture => t in ["x64", "x86", "arm", "arm64", "neutral"]
    case InstallerType =>
      t in ["exe", "msi", "msix", "appx", "zip", "inno", "nullsoft", "wix", "burn", "pwa", "portable"]
    case Scope => t in ["machine", "user"]
    case UpgradeBehavior => t in ["install", "uninstallPrevious", "deny"]
    case _ => false
  }

  /** What an input brings back. */
  predicate LineKept(v: Value) {
    v.Text? && v.text != "" && Trimmed(v.text) && '\r' !in v.text && '\n' !in v.text
  }

  /** What a text area brings back. */
  predicate AreaKept(v: Value) {
    v.Text? && v.text != "" && Trimmed(v.text) && '\r' !in v.text
  }

  /** What an input for a list brings back. */
  predicate ListKept(v: Value) {
    v.Items? && v.items != [] && forall i :: 0 <= i < |v.items| ==> ItemKept(v.items[i])
  }

  predicate ItemKept(x: string) {
    x != "" && Trimmed(x) && ',' !in x && '\r' !in x && '\n' !in x
  }

  predicate InstallerValueKept(f: InstallerField, v: Value) {
    if f in {Architecture, InstallerType, Scope, UpgradeBehavior} then v.Text? && Offered(f, v.text)
    else if f in {InstallModes, Platform, Commands, Protocols, FileExtensions} then ListKept(v)
    else if f == InstallerSuccessCodes then v.Codes? && v.codes != []
    else if f in {ExpectedReturnCodes, AppsAndFeaturesEntries} then v.Data? && v.elements != []
    else !Lost(f) && LineKept(v)
  }

  predicate TextValueKept(f: LocaleField, v: Value) {
    if f in {Publisher, PackageName, License, ShortDescription} then v == Text("") || LineKept(v)
    else if f in {Description, ReleaseNotes, InstallationNotes} then AreaKept(v)
    else if f == Tags then ListKept(v)
    else LineKept(v)
  }

  /** Field by field, the values of an installer that an untouched save brings back. */
  lemma InstallerValueKeptIff(codec: Codec, editing: bool, e: Entry, f: InstallerField, v: Value)
    requires Faithful(codec) && WellTypedEntry(e) && Get(e.fields, f) == Some(v)
    ensures Get(RebuiltEntry(codec, editing, e).fields, f) == Some(v) <==> InstallerValueKept(f, v)
  {
    hide *;
    FieldComesBackIff(codec, editing, e, f);
    TypedField(e, f);
    LostControl(f);
    OffersItsOptions(f);
    if v.Text? {
      OffersTrimmed(f, v.text);
    }
    InstallerKinds(f);
    KeptByKind(InstallerControl(f), v);
    InstallerKeptCases(f, v);
  }

  /** And the same for the texts of the default locale. */
  lemma TextValueKeptIff(codec: Codec, editing: bool, m: Manifest, f: LocaleField, v: Value)
    requires Faithful(codec) && WellTyped(m) && Get(m.locale, f) == Some(v)
    ensures Get(Rebuilt(codec, editing, m).locale, f) == Some(v) <==> TextValueKept(f, v)
  {
    hide *;
    Controls(PackageVersion, Scope, f);
    SavedTexts(codec, editing, m, PackageVersion, f);
    TypedText(m, f);
    SurvivesIff(codec, LocaleControl(f), Some(v));
    TextKinds(f, v);
    KeptByKind(LocaleControl(f), v);
  }

  lemma TypedText(m: Manifest, f: LocaleField)
    requires WellTyped(m)
    ensures Get(m.locale, f).Some? ==> Typed(LocaleControl(f).kind, Get(m.locale, f).value)
  {
    hide LocaleControl, Typed, IdentityControl, WellTypedEntry;
  }

  lemma TextKinds(f: LocaleField, v: Value)
    ensures var k := LocaleControl(f).kind;
      && LocaleControl(f).populated && (k.Mandatory? || k.Area? || k.Commas? || k.Line?)
      && (k.Mandatory? ==> (TextValueKept(f, v) <==> v == Text("") || LineKept(v)))
      && (k.Area? ==> (TextValueKept(f, v) <==> AreaKept(v)))
      && (k.Commas? ==> (TextValueKept(f, v) <==> ListKept(v)))
      && (k.Line? ==> (TextValueKept(f, v) <==> LineKept(v)))
  {
    hide LineKept, AreaKept, ListKept;
  }

  lemma InstallerKinds(f: InstallerField)
    ensures var k := InstallerControl(f).kind;
      && (k.Commas? <==> f in {InstallModes, Platform, Commands, Protocols, FileExtensions, UnsupportedArguments,
                               UnsupportedOSArchitectures})
      && (k.Numbers? <==> f == InstallerSuccessCodes)
      && (k.Json? <==> f in {ExpectedReturnCodes, AppsAndFeaturesEntries, NestedInstallerFiles, Markets})
      && (k.Choice? <==> f in {Architecture, InstallerType, Scope, UpgradeBehavior, ElevationRequirement,
                               NestedInstallerType})
      && !k.Area? && !k.Mandatory?
    ensures Lost(f) <==> f in {ReleaseDate, ElevationRequirement, UnsupportedArguments, UnsupportedOSArchitectures,
                               NestedInstallerType, NestedInstallerFiles, Markets}
  {}

  lemma OffersItsOptions(f: InstallerField)
    ensures f in {Architecture, InstallerType, Scope, UpgradeBehavior} ==>
      var c := InstallerControl(f);
      c.kind.Choice? && c.populated && forall t :: t in c.kind.options && t != "" <==> Offered(f, t)
  {}

  lemma OffersTrimmed(f: InstallerField, t: string)
    ensures Offered(f, t) ==> t != "" && Trimmed(t)
  {
    hide Trimmed;
    if Offered(f, t) {
      LettersAreTrimmed(t);
    }
  }

  lemma LettersAreTrimmed(t: string)
    requires t != "" ==> Inky(t[0]) && Inky(t[|t| - 1])
    ensures Trimmed(t)
  {}

  predicate Inky(c: char) {
    'a' <= c <= 'z' || '0' <= c <= '9'
  }

  /** What survives a control, by its kind. */
  lemma KeptByKind(c: Control, v: Value)
    requires Typed(c.kind, v)
    ensures !c.populated ==> !Survives(c, Some(v))
    ensures c.populated ==>
      match c.kind
      case Choice(options) =>
        v.Text? && (Survives(c, Some(v)) <==> v.text in options && v.text != "" && Trimmed(v.text))
      case Commas(_) => Survives(c, Some(v)) <==> ListKept(v)
      case Numbers => Survives(c, Some(v)) <==> v.Codes? && v.codes != []
      case Json => Survives(c, Some(v)) <==> v.Data? && v.elements != []
      case Area => Survives(c, Some(v)) <==> AreaKept(v)
      case Mandatory => Survives(c, Some(v)) <==> v == Text("") || LineKept(v)
      case Line => Survives(c, Some(v)) <==> LineKept(v)
  {
    hide IsSpace;
  }

  lemma InstallerKeptCases(f: InstallerField, v: Value)
    ensures f in {Architecture, InstallerType, Scope, UpgradeBehavior} ==>
      (InstallerValueKept(f, v) <==> v.Text? && Offered(f, v.text))
    ensures f in {InstallModes, Platform, Commands, Protocols, FileExtensions} ==>
      (InstallerValueKept(f, v) <==> ListKept(v))
    ensures f == InstallerSuccessCodes ==> (InstallerValueKept(f, v) <==> v.Codes? && v.codes != [])
    ensures f in {ExpectedReturnCodes, AppsAndFeaturesEntries} ==>
      (InstallerValueKept(f, v) <==> v.Data? && v.elements != [])
    ensures Lost(f) ==> !InstallerValueKept(f, v)
    ensures f !in {Architecture, InstallerType, Scope, UpgradeBehavior, InstallModes, Platform, Commands, Protocols,
                   FileExtensions, InstallerSuccessCodes, ExpectedReturnCodes, AppsAndFeaturesEntries} && !Lost(f) ==>
      (InstallerValueKept(f, v) <==> LineKept(v))
  {
    hide Offered, LineKept, ListKept;
  }

  /** What an untouched save adds to the two other manifests: the fields that are saved even when empty, the licence as
      `Undefined`. */
  lemma UntouchedSaveAddsTexts(codec: Codec, editing: bool, m: Manifest, i: IdentityField, f: LocaleField)
    ensures Get(m.identity, i) == None ==> Get(Rebuilt(codec, editing, m).identity, i) == Some(Text(""))
    ensures Get(m.locale, f) == None ==>
      Get(Rebuilt(codec, editing, m).locale, f) ==
        if f == License then Some(Text("Undefined"))
        else if f == Publisher || f == PackageName || f == ShortDescription then Some(Text(""))
        else None
  {
    hide *;
    Controls(i, Scope, f);
    SavedTexts(codec, editing, m, i, f);
    TextControls(i, f);
    AbsentText(codec, IdentityControl(i));
    AbsentText(codec, LocaleControl(f));
  }

  lemma SavedTexts(codec: Codec, editing: bool, m: Manifest, i: IdentityField, f: LocaleField)
    requires i in IdentityLayout().names && IdentityLayout().control(i) == IdentityControl(i)
    requires f in LocaleLayout().names && LocaleLayout().control(f) == LocaleControl(f)
    ensures var c := IdentityControl(i);
      Get(Rebuilt(codec, editing, m).identity, i) == Read(codec, c.kind, Shown(codec, c, Get(m.identity, i)))
    ensures var c := LocaleControl(f);
      Get(Rebuilt(codec, editing, m).locale, f) == Read(codec, c.kind, Shown(codec, c, Get(m.locale, f)))
  {
    hide IdentityLayout, LocaleLayout, IdentityControl, LocaleControl, Read, Shown, RebuiltEntries, OneLine, Trim;
  }

  lemma AbsentText(codec: Codec, c: Control)
    requires Trimmed(c.initial)
    ensures c.kind.Mandatory? ==> Read(codec, c.kind, Shown(codec, c, None)) == Some(Text(c.initial))
    ensures !c.kind.Mandatory? && c.initial == "" ==> Read(codec, c.kind, Shown(codec, c, None)) == None
  {
    TrimIsTrimmed(c.initial);
    hide Trim, Trimmed;
  }

  lemma TextControls(i: IdentityField, f: LocaleField)
    ensures IdentityControl(i).kind.Mandatory? && IdentityControl(i).initial == ""
    ensures LocaleControl(f).kind.Mandatory? <==> f in {Publisher, PackageName, License, ShortDescription}
    ensures LocaleControl(f).initial == if f == License then "Undefined" else ""
    ensures Trimmed(IdentityControl(i).initial) && Trimmed(LocaleControl(f).initial)
  {}

  lemma ReadsInitial(codec: Codec, c: Control)
    requires (c.kind.Choice? || c.kind.Line?) && Trimmed(c.initial) && c.initial != ""
    ensures Read(codec, c.kind, Shown(codec, c, None)) == Some(Text(c.initial))
  {
    TrimIsTrimmed(c.initial);
    hide Trim, Trimmed;
  }
}
