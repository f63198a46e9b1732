/** The edit page as a whole: its three templates, its installer cards, and when saving it untouched returns the
    manifest that filled it. */
module EditPage {
  import opened Prelude
  import opened Text
  import opened EditForm
  import opened EditFormRoundTrip
  import opened ManifestForms

  // ----- The templates of publish-custom.html

  datatype IdentityField = PackageIdentifier | PackageVersion

  datatype LocaleField =
    | Publisher | PackageName | License | ShortDescription | PublisherUrl | PublisherSupportUrl | PrivacyUrl | Author
    | PackageUrl | LicenseUrl | Copyright | CopyrightUrl | Description | Moniker | Tags | ReleaseNotesUrl
    | ReleaseNotes | InstallationNotes

  datatype InstallerField =
    | Architecture | InstallerType | Scope | InstallerLocale | Silent | SilentWithProgress | InstallModes
    | UpgradeBehavior | ProductCode | UpgradeCode | PackageFamilyName | MinimumOSVersion | Platform | ReleaseDate
    | ElevationRequirement | Interactive | InstallLocation | Log | Upgrade | Custom | InstallerSuccessCodes
    | ExpectedReturnCodes | UnsupportedArguments | UnsupportedOSArchitectures | Commands | Protocols | FileExtensions
    | AppsAndFeaturesEntries | NestedInstallerType | NestedInstallerFiles | Markets

  function IdentityControl(f: IdentityField): Control {
    Control(Mandatory, "", true)
  }

  function LocaleControl(f: LocaleField): Control {
    match f
    case Publisher => Control(Mandatory, "", true)
    case PackageName => Control(Mandatory, "", true)
    case License => Control(Mandatory, "Undefined", true)
    case ShortDescription => Control(Mandatory, "", true)
    case Description => Control(Area, "", true)
    case ReleaseNotes => Control(Area, "", true)
    case InstallationNotes => Control(Area, "", true)
    case Tags => Control(Commas(" "), "", true)
    case _ => Control(Line, "", true)
  }

  function InstallerControl(f: InstallerField): Control {
    match f
    case Architecture => Control(Choice({"", "x64", "x86", "arm", "arm64", "neutral"}), "", true)
    case InstallerType =>
      Control(Choice({"", "exe", "msi", "msix", "appx", "zip", "inno", "nullsoft", "wix", "burn", "pwa", "portable"}),
              "", true)
    case Scope => Control(Choice({"", "machine", "user"}), "machine", true)
    case InstallerLocale => Control(Line, "en-US", true)
    case UpgradeBehavior => Control(Choice({"", "install", "uninstallPrevious", "deny"}), "", true)
    case ElevationRequirement =>
      Control(Choice({"", "elevationRequired", "elevationProhibited", "elevatesSelf"}), "", false)
    case NestedInstallerType => Control(Choice({"", "msi", "exe", "msix", "portable"}), "", false)
    case InstallModes => Control(Commas(""), "", true)
    case Platform => Control(Commas(""), "", true)
    case Commands => Control(Commas(""), "", true)
    case Protocols => Control(Commas(""), "", true)
    case FileExtensions => Control(Commas(""), "", true)
    case UnsupportedArguments => Control(Commas(""), "", false)
    case UnsupportedOSArchitectures => Control(Commas(""), "", false)
    case InstallerSuccessCodes => Control(Numbers, "", true)
    case ExpectedReturnCodes => Control(Json, "", true)
    case AppsAndFeaturesEntries => Control(Json, "", true)
    case NestedInstallerFiles => Control(Json, "", false)
    case Markets => Control(Json, "", false)
    case ReleaseDate => Control(Line, "", false)
    case _ => Control(Line, "", true)
  }

  function IdentityLayout(): Layout<IdentityField> {
    Layout([PackageIdentifier, PackageVersion], IdentityControl)
  }

  function LocaleLayout(): Layout<LocaleField> {
    Layout(
    [Publisher, PackageName, License, ShortDescription, PublisherUrl, PublisherSupportUrl, PrivacyUrl, Author,
     PackageUrl, LicenseUrl, Copyright, CopyrightUrl, Description, Moniker, Tags, ReleaseNotesUrl, ReleaseNotes,
     InstallationNotes], LocaleControl)
  }

  function CardLayout(): Layout<InstallerField> {
    Layout(
    [Architecture, InstallerType, Scope, InstallerLocale, Silent, SilentWithProgress, InstallModes, UpgradeBehavior,
     ProductCode, UpgradeCode, PackageFamilyName, MinimumOSVersion, Platform, ReleaseDate, ElevationRequirement,
     Interactive, InstallLocation, Log, Upgrade, Custom, InstallerSuccessCodes, ExpectedReturnCodes,
     UnsupportedArguments, UnsupportedOSArchitectures, Commands, Protocols, FileExtensions, AppsAndFeaturesEntries,
     NestedInstallerType, NestedInstallerFiles, Markets], InstallerControl)
  }

  /** Every field of the manifest has its control. */
  lemma EveryFieldIsThere(i: IdentityField, f: InstallerField, g: LocaleField)
    ensures i in IdentityLayout().names && f in CardLayout().names && g in LocaleLayout().names
  {}

  lemma ControlsAreWellFormed(i: IdentityField, f: InstallerField, g: LocaleField)
    ensures WellFormed(IdentityLayout().control(i))
    ensures WellFormed(CardLayout().control(f)) && WellFormed(LocaleLayout().control(g))
  {}

  // ----- The page

  function NoUrl(): string {
    "https:/" + "/installer-url-rewritten-on-publish.invalid/file"
  }

  /** One entry of Installers; an absent SHA-256 or URL is empty. */
  datatype Entry = Entry(fields: map<InstallerField, Value>, sha256: string, url: string)

  /** `packageLocale` is the PackageLocale of the default locale manifest, `defaultLocale` the version manifest's. */
  datatype Manifest = Manifest(identity: map<IdentityField, Value>, defaultLocale: string, packageLocale: string,
                               locale: map<LocaleField, Value>, installers: seq<Entry>)

  datatype CardState = CardState(values: map<InstallerField, string>, sha256: string, url: string)

  function FilledCard(codec: Codec, e: Entry): CardState {
    CardState(Filled(codec, CardLayout(), e.fields), e.sha256, e.url)
  }

  function SavedCard(codec: Codec, editing: bool, c: CardState): Entry
    requires forall f :: f in CardLayout().names ==> f in c.values
  {
    Entry(Payload(codec, CardLayout(), c.values), c.sha256, if editing && c.url != "" then c.url else NoUrl())
  }

  function OrEnglish(s: string): string {
    if s == "" then "en-US" else s
  }

  /** What comes back when the page is filled from `m` and saved without a change. */
  function Rebuilt(codec: Codec, editing: bool, m: Manifest): Manifest {
    var locale := OrEnglish(Trim(OneLine(OrEnglish(m.defaultLocale))));
    Manifest(Payload(codec, IdentityLayout(), Filled(codec, IdentityLayout(), m.identity)), locale, locale,
             Payload(codec, LocaleLayout(), Filled(codec, LocaleLayout(), m.locale)),
             RebuiltEntries(codec, editing, m.installers))
  }

  function RebuiltEntries(codec: Codec, editing: bool, entries: seq<Entry>): (rebuilt: seq<Entry>)
    ensures |rebuilt| == |entries|
    ensures forall i :: 0 <= i < |entries| ==> rebuilt[i] == RebuiltEntry(codec, editing, entries[i])
  {
    seq(|entries|, i requires 0 <= i < |entries| => RebuiltEntry(codec, editing, entries[i]))
  }

  function RebuiltEntry(codec: Codec, editing: bool, e: Entry): Entry {
    SavedCard(codec, editing, FilledCard(codec, e))
  }

  lemma SameRebuilt(codec: Codec, editing: bool, m: Manifest, installers: seq<Entry>)
    requires |installers| == |m.installers|
    requires forall k :: 0 <= k < |installers| ==> installers[k] == RebuiltEntry(codec, editing, m.installers[k])
    ensures installers == RebuiltEntries(codec, editing, m.installers)
  {
    hide RebuiltEntry;
  }

  class Card {
    const form: Form<InstallerField>
    var sha256: string
    var url: string

    constructor ()
      ensures fresh(form) && form.layout == CardLayout() && sha256 == url == ""
      ensures form.values == map f | f in CardLayout().names :: CardLayout().control(f).initial
    {
      form := new Form(CardLayout());
      sha256, url := "", "";
    }

    ghost function State(): CardState
      reads this, form
    {
      CardState(form.values, sha256, url)
    }

    method Populate(codec: Codec, e: Entry)
      requires form.layout == CardLayout() && sha256 == url == ""
      requires form.values == map f | f in CardLayout().names :: CardLayout().control(f).initial
      modifies this, form
      ensures State() == FilledCard(codec, e)
    {
      form.Fill(codec, e.fields);
      if e.sha256 != "" {
        sha256 := e.sha256;
      }
      if e.url != "" {
        url := e.url;
      }
    }

    method BuildEntry(codec: Codec, editing: bool) returns (e: Entry)
      requires form.layout == CardLayout() && forall f :: f in CardLayout().names ==> f in form.values
      ensures e == SavedCard(codec, editing, State())
    {
      var fields := form.Save(codec);
      e := Entry(fields, sha256, if editing && url != "" then url else NoUrl());
    }
  }

  class Page {
    const identity: Form<IdentityField>
    const locale: Form<LocaleField>
    var defaultLocale: string
    var cards: seq<Card>

    constructor ()
      ensures Pristine() && fresh(identity) && fresh(locale)
    {
      identity := new Form(IdentityLayout());
      locale := new Form(LocaleLayout());
      defaultLocale, cards := "en-US", [];
    }

    ghost predicate Pristine()
      reads this, identity, locale
    {
      && identity.layout == IdentityLayout() && locale.layout == LocaleLayout()
      && identity.values == (map f | f in IdentityLayout().names :: IdentityLayout().control(f).initial)
      && locale.values == (map f | f in LocaleLayout().names :: LocaleLayout().control(f).initial)
    }

    /** The page shows `m`. */
    ghost predicate Shows(codec: Codec, m: Manifest)
      reads this, identity, locale, cards, set c | c in cards :: c.form
    {
      && identity.layout == IdentityLayout() && identity.values == Filled(codec, IdentityLayout(), m.identity)
      && locale.layout == LocaleLayout() && locale.values == Filled(codec, LocaleLayout(), m.locale)
      && defaultLocale == OneLine(OrEnglish(m.defaultLocale))
      && |cards| == |m.installers|
      && forall i :: 0 <= i < |cards| ==>
           cards[i].form.layout == CardLayout() && cards[i].State() == FilledCard(codec, m.installers[i])
    }

    /** populateFromManifest. */
    method Populate(codec: Codec, m: Manifest)
      requires Pristine()
      modifies this, identity, locale
      ensures Shows(codec, m)
    {
      hide Filled, FilledCard, OneLine, CardLayout, LocaleLayout, IdentityLayout;
      identity.Fill(codec, m.identity);
      defaultLocale := OneLine(OrEnglish(m.defaultLocale));
      locale.Fill(codec, m.locale);
      AddCards(codec, m.installers);
    }

    /** The installer cards are wiped, then one is added for each entry. */
    method AddCards(codec: Codec, entries: seq<Entry>)
      modifies `cards
      ensures |cards| == |entries|
      ensures forall i :: 0 <= i < |cards| ==>
        cards[i].form.layout == CardLayout() && cards[i].State() == FilledCard(codec, entries[i])
    {
      hide FilledCard, CardLayout;
      cards := [];
      for i := 0 to |entries|
        invariant |cards| == i
        invariant forall k :: 0 <= k < i ==>
          && fresh(cards[k]) && fresh(cards[k].form) && cards[k].form.layout == CardLayout()
          && cards[k].State() == FilledCard(codec, entries[k])
      {
        var card := new Card();
        card.Populate(codec, entries[i]);
        cards := cards + [card];
      }
    }

    /** buildPayload. */
    method BuildPayload(codec: Codec, editing: bool, ghost m: Manifest) returns (saved: Manifest)
      requires Shows(codec, m)
      ensures saved == Rebuilt(codec, editing, m)
    {
      hide Filled, Payload, OneLine, Trim, CardLayout, LocaleLayout, IdentityLayout;
      var id := identity.Save(codec);
      var language := OrEnglish(Trim(defaultLocale));
      var texts := locale.Save(codec);
      var installers := BuildEntries(codec, editing, m);
      hide Shows, RebuiltEntries;
      saved := Manifest(id, language, language, texts, installers);
    }

    /** One entry for each card on the page. */
    method BuildEntries(codec: Codec, editing: bool, ghost m: Manifest) returns (installers: seq<Entry>)
      requires Shows(codec, m)
      ensures installers == RebuiltEntries(codec, editing, m.installers)
    {
      hide Filled, Payload, OneLine, Trim, CardLayout, LocaleLayout, IdentityLayout, RebuiltEntries;
      installers := [];
      for i := 0 to |cards|
        invariant |installers| == i
        invariant forall k :: 0 <= k < i ==> installers[k] == RebuiltEntry(codec, editing, m.installers[k])
      {
        var e := cards[i].BuildEntry(codec, editing);
        installers := installers + [e];
      }
      hide Shows, RebuiltEntry;
      SameRebuilt(codec, editing, m, installers);
    }
  }
}
