/** `generateIcons` (src/utils/iconGenerator.ts): one shared canvas is resized
    to each catalog entry in turn, cleared, painted with the upload and
    encoded, and the result is stored under `"<platform>-<size>"`. */
module IconGenerator {
  import opened Decimal
  import opened IconCatalog
  import opened Canvas2D

  /** The platform word at the head of every key. */
  function PlatformLabel(p: Platform): (word: string)
    ensures |word| >= 3 && '-' !in word
  {
    match p
    case Android => "android"
    case IOS => "ios"
    case MacOS => "macos"
  }

  /** The dictionary key of an icon, the template literal `${platform}-${size}`. */
  function IconKey(p: Platform, size: nat): string {
    PlatformLabel(p) + "-" + NatToString(size)
  }

  /** A key names exactly one platform and one size. */
  lemma IconKeyInjective(p: Platform, n: nat, q: Platform, m: nat)
    requires IconKey(p, n) == IconKey(q, m)
    ensures p == q && n == m
  {
    var a, b := PlatformLabel(p), PlatformLabel(q);
    var k := IconKey(p, n);
    assert k == a + "-" + NatToString(n) && k == b + "-" + NatToString(m);
    // The first '-' of a key ends its platform word.
    assert k[|a|] == '-' && k[|b|] == '-';
    assert forall i :: 0 <= i < |a| ==> k[i] == a[i];
    assert forall i :: 0 <= i < |b| ==> k[i] == b[i];
    assert |a| == |b|;
    assert p == q;
    assert k[|a| + 1..] == NatToString(n) && k[|a| + 1..] == NatToString(m);
    NatToStringInjective(n, m);
  }

  /** One step of the generation: which platform list, which row. */
  datatype Target = Target(platform: Platform, entry: SizeEntry)

  function TargetKey(t: Target): string {
    IconKey(t.platform, t.entry.size)
  }

  /** The steps of platform `p`'s loop: its rows, tagged with the platform. */
  function Tagged(p: Platform): seq<Target> {
    seq(|Entries(p)|, i requires 0 <= i < |Entries(p)| => Target(p, Entries(p)[i]))
  }

  /** Every step of a run, in the order the three `forEach` loops take them. */
  const Catalog: seq<Target> := Tagged(Android) + Tagged(IOS) + Tagged(MacOS)

  /** The number of steps taken before the loop of platform `p` starts. */
  function Offset(p: Platform): nat {
    match p
    case Android => 0
    case IOS => |AndroidIcons|
    case MacOS => |AndroidIcons| + |IosIcons|
  }

  /** A run has 26 steps: 5 Android, 14 iOS and 7 macOS rows. */
  lemma CatalogLength()
    ensures |Catalog| == 26
  {
    assert |Tagged(Android)| == 5 && |Tagged(IOS)| == 14 && |Tagged(MacOS)| == 7;
  }

  /** Row `i` of platform `p` is step `Offset(p) + i` of a run. */
  lemma CatalogAt(p: Platform, i: nat)
    requires i < |Entries(p)|
    ensures Offset(p) + i < |Catalog| == 26
    ensures Catalog[Offset(p) + i] == Target(p, Entries(p)[i])
  {
    var a, o := Tagged(Android), Tagged(IOS);
    assert Catalog == a + o + Tagged(MacOS);
    match p {
      case Android => assert Catalog[i] == a[i];
      case IOS => assert Catalog[|a| + i] == o[i];
      case MacOS =>
    }
  }

  /** The three loops cover the run back to back. */
  lemma OffsetsChain()
    ensures Offset(Android) == 0
    ensures Offset(IOS) == Offset(Android) + |Entries(Android)|
    ensures Offset(MacOS) == Offset(IOS) + |Entries(IOS)|
    ensures Offset(MacOS) + |Entries(MacOS)| == |Catalog|
  {
    CatalogLength();
  }

  /** Conversely, step `i` is a row of its own platform's list. */
  lemma CatalogIndex(i: nat)
    requires i < |Catalog|
    ensures var t := Catalog[i]; var o := Offset(t.platform);
      o <= i < o + |Entries(t.platform)| && t.entry == Entries(t.platform)[i - o]
  {
    if i < 5 {
      CatalogAt(Android, i);
    } else if i < 19 {
      CatalogAt(IOS, i - 5);
    } else {
      CatalogAt(MacOS, i - 19);
    }
  }

  /** Two steps of a run store under the same key only if they are the same step. */
  lemma CatalogKeysDetermineStep(i: nat, j: nat)
    requires i < |Catalog| && j < |Catalog|
    requires TargetKey(Catalog[i]) == TargetKey(Catalog[j])
    ensures i == j
  {
    var s, t := Catalog[i], Catalog[j];
    IconKeyInjective(s.platform, s.entry.size, t.platform, t.entry.size);
    CatalogIndex(i);
    CatalogIndex(j);
    var o := Offset(s.platform);
    SizesDistinct(s.platform, i - o, j - o);
  }

  /** All 26 keys of a run are distinct. */
  lemma CatalogKeysDistinct()
    ensures forall i, j :: 0 <= i < j < |Catalog| ==> TargetKey(Catalog[i]) != TargetKey(Catalog[j])
  {
    forall i, j | 0 <= i < j < |Catalog|
      ensures TargetKey(Catalog[i]) != TargetKey(Catalog[j])
    {
      if TargetKey(Catalog[i]) == TargetKey(Catalog[j]) {
        CatalogKeysDetermineStep(i, j);
      }
    }
  }

  /** The icon of one entry: a `size` x `size` PNG holding nothing but the
      whole upload stretched over the square. It depends on the upload and
      the size only. */
  function Rendered(source: SourceImage, size: nat): (png: PngImage)
    ensures png.width == size && png.height == size
    ensures png.picture == [Drawn(source, 0, 0, size, size)]
  {
    EncodePng(size, size, [Drawn(source, 0, 0, size, size)])
  }

  /** The dictionary after the steps `ts`, each storing its rendered icon
      under its key. */
  function Generated(source: SourceImage, ts: seq<Target>): map<string, PngImage>
    decreases |ts|
  {
    if ts == [] then map[]
    else
      var t := ts[|ts| - 1];
      Generated(source, ts[..|ts| - 1])[TargetKey(t) := Rendered(source, t.entry.size)]
  }

  function KeysOf(ts: seq<Target>): set<string> {
    set t | t in ts :: TargetKey(t)
  }

  /** After the steps `ts` the dictionary holds exactly their keys. */
  lemma {:induction false} GeneratedKeys(source: SourceImage, ts: seq<Target>)
    ensures Generated(source, ts).Keys == KeysOf(ts)
    decreases |ts|
  {
    if ts != [] {
      var init := ts[..|ts| - 1];
      GeneratedKeys(source, init);
      assert ts == init + [ts[|ts| - 1]];
      assert KeysOf(ts) == KeysOf(init) + {TargetKey(ts[|ts| - 1])};
    }
  }

  /** Every step's key holds the icon rendered at that step's size. */
  lemma {:induction false} GeneratedIcon(source: SourceImage, ts: seq<Target>, t: Target)
    requires t in ts
    ensures TargetKey(t) in Generated(source, ts)
    ensures Generated(source, ts)[TargetKey(t)] == Rendered(source, t.entry.size)
    decreases |ts|
  {
    var init, last := ts[..|ts| - 1], ts[|ts| - 1];
    if t != last {
      assert ts == init + [last];
      GeneratedIcon(source, init, t);
      if TargetKey(t) == TargetKey(last) {
        IconKeyInjective(t.platform, t.entry.size, last.platform, last.entry.size);
      }
    }
  }

  /** When the keys of `ts` are distinct, no step overwrites an earlier one,
      so the dictionary has one entry per step. */
  lemma {:induction false} GeneratedSize(source: SourceImage, ts: seq<Target>)
    requires forall i, j :: 0 <= i < j < |ts| ==> TargetKey(ts[i]) != TargetKey(ts[j])
    ensures |Generated(source, ts)| == |ts|
    decreases |ts|
  {
    if ts != [] {
      var init, last := ts[..|ts| - 1], ts[|ts| - 1];
      GeneratedSize(source, init);
      GeneratedKeys(source, init);
      assert TargetKey(last) !in KeysOf(init);
    }
  }

  /** When the keys of `ts` are distinct, step `k` stores under a key that no
      earlier step used, and extends the dictionary by that one icon. */
  lemma GeneratedStep(source: SourceImage, ts: seq<Target>, k: nat)
    requires k < |ts|
    requires forall i, j :: 0 <= i < j < |ts| ==> TargetKey(ts[i]) != TargetKey(ts[j])
    ensures TargetKey(ts[k]) !in Generated(source, ts[..k])
    ensures Generated(source, ts[..k + 1])
         == Generated(source, ts[..k])[TargetKey(ts[k]) := Rendered(source, ts[k].entry.size)]
  {
    var done, next := ts[..k], ts[..k + 1];
    GeneratedKeys(source, done);
    assert forall t :: t in done ==> TargetKey(t) != TargetKey(ts[k]);
    assert next[..|next| - 1] == done && next[|next| - 1] == ts[k];
  }

  /** Row `i` of platform `p` is stored under a key that no earlier step of
      the run used, and storing its icon takes the dictionary exactly one
      step further. */
  lemma PlatformStep(source: SourceImage, p: Platform, i: nat, k: nat)
    requires i < |Entries(p)| && k == Offset(p) + i
    ensures IconKey(p, Entries(p)[i].size) !in Generated(source, Catalog[..k])
    ensures Generated(source, Catalog[..k])[IconKey(p, Entries(p)[i].size) := Rendered(source, Entries(p)[i].size)]
         == Generated(source, Catalog[..k + 1])
  {
    CatalogAt(p, i);
    CatalogKeysDistinct();
    GeneratedStep(source, Catalog, k);
  }

  /** Taking all of a sequence leaves it whole. */
  lemma WholePrefix(ts: seq<Target>, k: nat)
    requires k == |ts|
    ensures ts[..k] == ts
  {
  }

  /** The dictionary of a complete run. */
  function IconSet(source: SourceImage): map<string, PngImage> {
    Generated(source, Catalog)
  }

  /** After the first `k` steps of a run, the dictionary holds exactly the
      keys of the first `k` catalog entries, one icon each (nothing was
      overwritten), and each icon has its entry's dimensions. */
  lemma RunPrefix(source: SourceImage, k: nat)
    requires k <= |Catalog|
    ensures |Generated(source, Catalog[..k])| == k
    ensures Generated(source, Catalog[..k]).Keys == KeysOf(Catalog[..k])
    ensures forall t :: t in Catalog[..k] ==>
      && TargetKey(t) in Generated(source, Catalog[..k])
      && Generated(source, Catalog[..k])[TargetKey(t)] == Rendered(source, t.entry.size)
      && Generated(source, Catalog[..k])[TargetKey(t)].width == t.entry.size
      && Generated(source, Catalog[..k])[TargetKey(t)].height == t.entry.size
  {
    var prefix := Catalog[..k];
    CatalogKeysDistinct();
    assert forall i, j :: 0 <= i < j < |prefix| ==> TargetKey(prefix[i]) != TargetKey(prefix[j]) by {
      forall i, j | 0 <= i < j < |prefix| ensures TargetKey(prefix[i]) != TargetKey(prefix[j]) {
        assert prefix[i] == Catalog[i] && prefix[j] == Catalog[j];
      }
    }
    GeneratedSize(source, prefix);
    GeneratedKeys(source, prefix);
    forall t | t in prefix
      ensures TargetKey(t) in Generated(source, prefix)
      ensures Generated(source, prefix)[TargetKey(t)] == Rendered(source, t.entry.size)
    {
      GeneratedIcon(source, prefix, t);
    }
  }

  /** The key of every step of a run is in the dictionary of the run. */
  lemma StepKeyPresent(source: SourceImage, k: nat)
    requires k < |Catalog|
    ensures TargetKey(Catalog[k]) in IconSet(source)
  {
    GeneratedKeys(source, Catalog);
    assert Catalog[k] in Catalog;
  }

  /** 26 icons, one under each catalog entry's key, each as wide and as high
      as that entry's size. */
  predicate CompleteIconSet(icons: map<string, PngImage>) {
    && |icons| == 26
    && icons.Keys == KeysOf(Catalog)
    && forall t :: t in Catalog ==>
         && TargetKey(t) in icons
         && icons[TargetKey(t)].width == t.entry.size
         && icons[TargetKey(t)].height == t.entry.size
  }

  /** A complete run has 26 keys, one `"<platform>-<size>"` per catalog entry,
      each holding a `size` x `size` icon of that entry, whatever the shape
      of the upload. */
  lemma IconSetComplete(source: SourceImage)
    ensures CompleteIconSet(IconSet(source))
    ensures forall t :: t in Catalog ==>
      TargetKey(t) in IconSet(source) && IconSet(source)[TargetKey(t)] == Rendered(source, t.entry.size)
  {
    CatalogLength();
    RunPrefix(source, |Catalog|);
    WholePrefix(Catalog, |Catalog|);
  }

  /** The canvas is `size` x `size` and holds only the whole upload drawn
      over the full square. */
  predicate Shows(canvas: Canvas, source: SourceImage, size: nat)
    reads canvas
  {
    && canvas.width == size && canvas.height == size
    && canvas.picture == [Drawn(source, 0, 0, size, size)]
  }

  /** The size of the last row of each platform list. */
  function LastSize(p: Platform): nat {
    match p
    case Android => 192
    case IOS => 1024
    case MacOS => 1024
  }

  /** `LastSize` agrees with the catalog: it is the size of the last row. */
  lemma LastSizeIsLastRow(p: Platform)
    ensures |Entries(p)| > 0 && LastSize(p) == Entries(p)[|Entries(p)| - 1].size
  {
  }

  /** The body of each loop: resize the shared canvas to `size` x `size`,
      clear it, draw the whole upload over it and encode it as a PNG. The
      canvas is left `size` x `size` holding only that drawing. */
  method RenderOn(canvas: Canvas, source: SourceImage, size: nat) returns (png: PngImage)
    modifies canvas
    ensures Shows(canvas, source, size)
    ensures png == Rendered(source, size)
  {
    canvas.width := size;
    canvas.height := size;
    canvas.ClearRect(0, 0, size, size);
    canvas.DrawImage(source, 0, 0, size, size);
    png := canvas.ToDataUrl();
  }

  /** One of the three `forEach` loops of `generateIcons` (they differ only
      in the platform): every row of platform `p`, in order, resizes the
      shared canvas to the row's size, clears it, draws the whole upload
      over it and stores the PNG under `"<platform>-<size>"`. Afterwards the
      canvas holds the drawing of the platform's last row. */
  method DrawPlatform(canvas: Canvas, source: SourceImage, p: Platform,
                      icons: map<string, PngImage>, ghost done: nat)
    returns (out: map<string, PngImage>)
    requires done == Offset(p)
    requires icons == Generated(source, Catalog[..done])
    modifies canvas
    ensures out == Generated(source, Catalog[..done + |Entries(p)|])
    ensures Shows(canvas, source, LastSize(p))
  {
    var rows := Entries(p);
    out := icons;
    for i := 0 to |rows|
      invariant out == Generated(source, Catalog[..done + i])
      invariant i > 0 ==> Shows(canvas, source, rows[i - 1].size)
    {
      var size := rows[i].size;
      var png := RenderOn(canvas, source, size);
      PlatformStep(source, p, i, done + i);
      out := out[IconKey(p, size) := png];
    }
    LastSizeIsLastRow(p);
  }

  /** `generateIcons`. `hasContext` is whether `canvas.getContext('2d')`
      returned a context; without one the source returns before building
      anything and its promise never settles, which is `None` here. */
  method GenerateIcons(source: SourceImage, hasContext: bool)
    returns (icons: Option<map<string, PngImage>>)
    ensures icons.Some? <==> hasContext
    ensures icons.Some? ==> icons.value == IconSet(source)
    ensures icons.Some? ==> CompleteIconSet(icons.value)
  {
    var canvas := new Canvas();
    if !hasContext {
      return None;
    }
    OffsetsChain();
    var out: map<string, PngImage> := map[];
    ghost var done := 0;  // catalog entries handled so far
    assert Catalog[..done] == [];
    out := DrawPlatform(canvas, source, Android, out, done);
    done := done + |Entries(Android)|;
    out := DrawPlatform(canvas, source, IOS, out, done);
    done := done + |Entries(IOS)|;
    out := DrawPlatform(canvas, source, MacOS, out, done);
    done := done + |Entries(MacOS)|;
    WholePrefix(Catalog, done);
    IconSetComplete(source);
    return Some(out);
  }
}
