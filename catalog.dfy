/** The fixed table of icons generated for each platform
    (`iconSizes` in src/utils/iconGenerator.ts). */
module IconCatalog {
  import opened Decimal

  datatype Option<+T> = None | Some(value: T)

  datatype Platform = Android | IOS | MacOS

  /** One catalog row. Only the Android rows carry a density folder. */
  datatype SizeEntry = SizeEntry(name: string, size: nat, folder: Option<string>)

  const MaxIconSize: nat := 1024

  const AndroidIcons: seq<SizeEntry> := [
    SizeEntry("mdpi", 48, Some("mipmap-mdpi")),
    SizeEntry("hdpi", 72, Some("mipmap-hdpi")),
    SizeEntry("xhdpi", 96, Some("mipmap-xhdpi")),
    SizeEntry("xxhdpi", 144, Some("mipmap-xxhdpi")),
    SizeEntry("xxxhdpi", 192, Some("mipmap-xxxhdpi"))
  ]

  const IosIcons: seq<SizeEntry> := [
    SizeEntry("Icon-20", 20, None),
    SizeEntry("Icon-29", 29, None),
    SizeEntry("Icon-40", 40, None),
    SizeEntry("Icon-58", 58, None),
    SizeEntry("Icon-60", 60, None),
    SizeEntry("Icon-76", 76, None),
    SizeEntry("Icon-80", 80, None),
    SizeEntry("Icon-87", 87, None),
    SizeEntry("Icon-120", 120, None),
    SizeEntry("Icon-152", 152, None),
    SizeEntry("Icon-167", 167, None),
    SizeEntry("Icon-180", 180, None),
    SizeEntry("Icon-512", 512, None),
    SizeEntry("Icon-1024", 1024, None)
  ]

  const MacosIcons: seq<SizeEntry> := [
    SizeEntry("icon_16x16", 16, None),
    SizeEntry("icon_32x32", 32, None),
    SizeEntry("icon_64x64", 64, None),
    SizeEntry("icon_128x128", 128, None),
    SizeEntry("icon_256x256", 256, None),
    SizeEntry("icon_512x512", 512, None),
    SizeEntry("icon_1024x1024", 1024, None)
  ]

  /** The list of one platform, `iconSizes[platform]`. */
  function Entries(p: Platform): seq<SizeEntry> {
    match p
    case Android => AndroidIcons
    case IOS => IosIcons
    case MacOS => MacosIcons
  }

  /** The sizes of a table, in order. */
  function Sizes(es: seq<SizeEntry>): seq<nat> {
    seq(|es|, i requires 0 <= i < |es| => es[i].size)
  }

  predicate StrictlyAscending(es: seq<SizeEntry>) {
    forall i, j :: 0 <= i < j < |es| ==> es[i].size < es[j].size
  }

  /** What the table of platform `p` promises of each of its rows: a size in
      1..1024 and the platform's naming (Android: density folder
      `mipmap-<name>`; iOS: `Icon-<size>`; macOS: `icon_<size>x<size>`). */
  predicate RowWellFormed(p: Platform, e: SizeEntry) {
    && 0 < e.size <= MaxIconSize
    && match p
       case Android => e.folder.Some? && e.folder.value == "mipmap-" + e.name
       case IOS => e.folder == None && e.name == "Icon-" + NatToString(e.size)
       case MacOS =>
         e.folder == None && e.name == "icon_" + NatToString(e.size) + "x" + NatToString(e.size)
  }

  /** Rows `from` onwards, one at a time and neighbour by neighbour, so that
      the verifier can settle it by unfolding on a literal table. */
  predicate TableWellFormedFrom(p: Platform, es: seq<SizeEntry>, from: nat)
    decreases |es| - from
  {
    from >= |es| ||
    (&& RowWellFormed(p, es[from])
     && (from + 1 < |es| ==> es[from].size < es[from + 1].size)
     && TableWellFormedFrom(p, es, from + 1))
  }

  lemma {:induction false} TableWellFormedMeans(p: Platform, es: seq<SizeEntry>, from: nat)
    requires TableWellFormedFrom(p, es, from)
    ensures forall i, j :: from <= i < j < |es| ==> es[i].size < es[j].size
    ensures forall i :: from <= i < |es| ==> RowWellFormed(p, es[i])
    decreases |es| - from
  {
    if from < |es| {
      TableWellFormedMeans(p, es, from + 1);
    }
  }

  lemma AndroidTableChecked()
    ensures TableWellFormedFrom(Android, AndroidIcons, 0)
  {
  }

  lemma IosTableTailChecked()
    ensures TableWellFormedFrom(IOS, IosIcons, 7)
  {
    assert TableWellFormedFrom(IOS, IosIcons, 11);
  }

  lemma IosTableChecked()
    ensures TableWellFormedFrom(IOS, IosIcons, 0)
  {
    IosTableTailChecked();
    assert TableWellFormedFrom(IOS, IosIcons, 4);
  }

  lemma MacosTableTailChecked()
    ensures TableWellFormedFrom(MacOS, MacosIcons, 4)
  {
    assert TableWellFormedFrom(MacOS, MacosIcons, 6);
  }

  lemma MacosTableChecked()
    ensures TableWellFormedFrom(MacOS, MacosIcons, 0)
  {
    MacosTableTailChecked();
    assert TableWellFormedFrom(MacOS, MacosIcons, 2);
  }

  /** Every table: sizes positive, at most 1024 and strictly ascending, and
      every row named as its platform requires. */
  lemma CatalogWellFormed(p: Platform)
    ensures StrictlyAscending(Entries(p))
    ensures forall i :: 0 <= i < |Entries(p)| ==> RowWellFormed(p, Entries(p)[i])
  {
    match p {
      case Android => AndroidTableChecked();
      case IOS => IosTableChecked();
      case MacOS => MacosTableChecked();
    }
    TableWellFormedMeans(p, Entries(p), 0);
  }

  /** Android: the five densities 48..192, each in the folder `mipmap-<name>`. */
  lemma AndroidCatalog()
    ensures |AndroidIcons| == 5
    ensures Sizes(AndroidIcons) == [48, 72, 96, 144, 192]
    ensures forall i :: 0 <= i < |AndroidIcons| ==>
      AndroidIcons[i].folder.Some? && AndroidIcons[i].folder.value == "mipmap-" + AndroidIcons[i].name
  {
    CatalogWellFormed(Android);
  }

  /** iOS: fourteen rows, each named `Icon-<size>`, from 20 to 1024. */
  lemma IosCatalog()
    ensures |IosIcons| == 14
    ensures Sizes(IosIcons) == [20, 29, 40, 58, 60, 76, 80, 87, 120, 152, 167, 180, 512, 1024]
    ensures forall i :: 0 <= i < |IosIcons| ==>
      IosIcons[i].name == "Icon-" + NatToString(IosIcons[i].size)
  {
    CatalogWellFormed(IOS);
  }

  /** macOS: seven rows, each named `icon_<size>x<size>`, from 16 to 1024. */
  lemma MacosCatalog()
    ensures |MacosIcons| == 7
    ensures Sizes(MacosIcons) == [16, 32, 64, 128, 256, 512, 1024]
    ensures forall i :: 0 <= i < |MacosIcons| ==>
      var s := NatToString(MacosIcons[i].size); MacosIcons[i].name == "icon_" + s + "x" + s
  {
    CatalogWellFormed(MacOS);
  }

  /** Hence a platform never lists one size twice. */
  lemma SizesDistinct(p: Platform, i: nat, j: nat)
    requires i < |Entries(p)| && j < |Entries(p)|
    requires Entries(p)[i].size == Entries(p)[j].size
    ensures i == j
  {
    CatalogWellFormed(p);
    // Either order of i and j would contradict strict ascent.
    if i < j {
    } else if j < i {
    }
  }
}
