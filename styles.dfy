/**
 * Styles: the Style class that pushes a set of ImGui style values (and
 * optionally a font) onto ImGui's global state and pops them again, its group
 * setters and font key, the WindowStyle that adds window flags and a tiled
 * background texture, and StyleApplier, the disposable that pushes a style for
 * the length of a `using` block (VSImGui/src/Styles/Style.cs and
 * VSImGui/src/Styles/WindowStyle.cs).
 *
 * Style values are floats that the model never computes with; they are kept
 * as opaque `real`s. ImGui's global state is an object holding the current
 * style and the font stack.
 */
module Styles {
  import opened Wrappers
  import opened WindowFlagsModel

  /** ImGui's two-component vector. */
  datatype Vec2 = Vec2(x: real, y: real)

  /**
   * ImGuiStyle: the fields the group setters reach are named; every other
   * field (alpha, spacing, sizes, colours, ...) is kept together in `others`.
   */
  datatype NativeStyle = NativeStyle(
    windowPadding: Vec2, framePadding: Vec2, cellPadding: Vec2, touchExtraPadding: Vec2,
    separatorTextPadding: Vec2, displayWindowPadding: Vec2, displaySafeAreaPadding: Vec2,
    windowBorderSize: real, childBorderSize: real, popupBorderSize: real,
    frameBorderSize: real, tabBorderSize: real, separatorTextBorderSize: real,
    windowRounding: real, childRounding: real, popupRounding: real, frameRounding: real,
    scrollbarRounding: real, grabRounding: real, tabRounding: real,
    windowTitleAlign: Vec2, buttonTextAlign: Vec2, selectableTextAlign: Vec2, separatorTextAlign: Vec2,
    others: seq<real>)
  {
    /** The seven paddings the `Paddings` setter writes, its getter's field first. */
    function Paddings(): seq<Vec2> {
      [windowPadding, framePadding, cellPadding, touchExtraPadding,
       separatorTextPadding, displayWindowPadding, displaySafeAreaPadding]
    }

    /** The six border sizes the `Borders` setter writes. */
    function Borders(): seq<real> {
      [windowBorderSize, childBorderSize, popupBorderSize, frameBorderSize,
       tabBorderSize, separatorTextBorderSize]
    }

    /** The seven roundings the `Rounding` setter writes. */
    function Roundings(): seq<real> {
      [windowRounding, childRounding, popupRounding, frameRounding,
       scrollbarRounding, grabRounding, tabRounding]
    }

    /** The four alignments the `Aligns` setter writes. */
    function Aligns(): seq<Vec2> {
      [windowTitleAlign, buttonTextAlign, selectableTextAlign, separatorTextAlign]
    }

    /** `Paddings = v`: all seven paddings become v, every other field is kept. */
    function WithPaddings(v: Vec2): (r: NativeStyle)
      ensures |r.Paddings()| == 7 && forall i :: 0 <= i < 7 ==> r.Paddings()[i] == v
      ensures r.Borders() == Borders() && r.Roundings() == Roundings()
      ensures r.Aligns() == Aligns() && r.others == others
    {
      this.(windowPadding := v, framePadding := v, cellPadding := v, touchExtraPadding := v,
            separatorTextPadding := v, displayWindowPadding := v, displaySafeAreaPadding := v)
    }

    /** `Borders = v`: all six border sizes become v, every other field is kept. */
    function WithBorders(v: real): (r: NativeStyle)
      ensures |r.Borders()| == 6 && forall i :: 0 <= i < 6 ==> r.Borders()[i] == v
      ensures r.Paddings() == Paddings() && r.Roundings() == Roundings()
      ensures r.Aligns() == Aligns() && r.others == others
    {
      this.(windowBorderSize := v, childBorderSize := v, popupBorderSize := v,
            frameBorderSize := v, tabBorderSize := v, separatorTextBorderSize := v)
    }

    /** `Rounding = v`: all seven roundings become v, every other field is kept. */
    function WithRoundings(v: real): (r: NativeStyle)
      ensures |r.Roundings()| == 7 && forall i :: 0 <= i < 7 ==> r.Roundings()[i] == v
      ensures r.Paddings() == Paddings() && r.Borders() == Borders()
      ensures r.Aligns() == Aligns() && r.others == others
    {
      this.(windowRounding := v, childRounding := v, popupRounding := v, frameRounding := v,
            scrollbarRounding := v, grabRounding := v, tabRounding := v)
    }

    /** `Aligns = v`: all four alignments become v, every other field is kept. */
    function WithAligns(v: Vec2): (r: NativeStyle)
      ensures |r.Aligns()| == 4 && forall i :: 0 <= i < 4 ==> r.Aligns()[i] == v
      ensures r.Paddings() == Paddings() && r.Borders() == Borders()
      ensures r.Roundings() == Roundings() && r.others == others
    {
      this.(windowTitleAlign := v, buttonTextAlign := v, selectableTextAlign := v,
            separatorTextAlign := v)
    }
  }

  /** A group setter's private getter reads back the value just set. */
  lemma GroupSetThenGet(s: NativeStyle, v: Vec2, r: real)
    ensures s.WithPaddings(v).windowPadding == v
    ensures s.WithBorders(r).windowBorderSize == r
    ensures s.WithRoundings(r).windowRounding == r
    ensures s.WithAligns(v).windowTitleAlign == v
  {
    assert s.WithPaddings(v).Paddings()[0] == v;
    assert s.WithBorders(r).Borders()[0] == r;
    assert s.WithRoundings(r).Roundings()[0] == r;
    assert s.WithAligns(v).Aligns()[0] == v;
  }

  /** Setting two different groups gives the same style in either order. */
  lemma GroupSettersCommute(s: NativeStyle, v: Vec2, r: real)
    ensures s.WithPaddings(v).WithBorders(r) == s.WithBorders(r).WithPaddings(v)
    ensures s.WithRoundings(r).WithAligns(v) == s.WithAligns(v).WithRoundings(r)
  {
  }

  /** A font is looked up by name and size; the name may be null. */
  datatype FontKey = FontKey(name: Option<string>, size: int)

  /** The font size the constructors use when none is given. */
  const DefaultFontSize := 14

  /** The top of a stack popped off, when there is one. */
  function PopTop(fonts: seq<int>): (r: seq<int>)
    ensures |fonts| > 0 ==> r + [fonts[|fonts| - 1]] == fonts
    ensures |fonts| == 0 ==> r == []
  {
    if |fonts| > 0 then fonts[..|fonts| - 1] else fonts
  }

  /** ImGui's global state a style touches: the current style and the font stack. */
  class ImGuiContext {
    var current: NativeStyle
    var fonts: seq<int>

    constructor (style: NativeStyle)
      ensures current == style && fonts == []
    {
      current := style;
      fonts := [];
    }
  }

  class Style {
    var native: NativeStyle
    /** The global style saved by the last Push. */
    var prev: NativeStyle
    /** The loaded font (an ImFontPtr, as an opaque handle). */
    var font: int
    var fontKey: FontKey
    var pushed: bool
    var fontPushed: bool
    var fontLoaded: bool

    /** A font is only ever pushed as part of a push. */
    ghost predicate Valid()
      reads this
    {
      fontPushed ==> pushed
    }

    /** Style(ImGuiStyle, fontName, fontSize): keep the style, set the font. */
    constructor (style: NativeStyle, fontName: Option<string>, fontSize: int, loadedFonts: map<FontKey, int>)
      ensures Valid() && !pushed && !fontPushed
      ensures native == style && fontKey == FontKey(fontName, fontSize)
      ensures fontLoaded <==> fontKey in loadedFonts
      ensures fontLoaded ==> font == loadedFonts[fontKey]
    {
      native := style;
      prev := style;
      fontKey := FontKey(fontName, fontSize);
      fontLoaded := FontKey(fontName, fontSize) in loadedFonts;
      font := if FontKey(fontName, fontSize) in loadedFonts then loadedFonts[FontKey(fontName, fontSize)] else 0;
      pushed := false;
      fontPushed := false;
    }

    /** Style(fontName, fontSize) and Style(): start from ImGui's current style. */
    constructor FromCurrent(ctx: ImGuiContext, fontName: Option<string>, fontSize: int, loadedFonts: map<FontKey, int>)
      ensures Valid() && !pushed && !fontPushed
      ensures native == ctx.current && fontKey == FontKey(fontName, fontSize)
      ensures fontLoaded <==> fontKey in loadedFonts
      ensures fontLoaded ==> font == loadedFonts[fontKey]
    {
      native := ctx.current;
      prev := ctx.current;
      fontKey := FontKey(fontName, fontSize);
      fontLoaded := FontKey(fontName, fontSize) in loadedFonts;
      font := if FontKey(fontName, fontSize) in loadedFonts then loadedFonts[FontKey(fontName, fontSize)] else 0;
      pushed := false;
      fontPushed := false;
    }

    /** Style(): ImGui's current style with the font ("", 14). */
    constructor Default(ctx: ImGuiContext, loadedFonts: map<FontKey, int>)
      ensures Valid() && !pushed && !fontPushed
      ensures native == ctx.current && fontKey == FontKey(Some(""), DefaultFontSize)
      ensures fontLoaded <==> fontKey in loadedFonts
      ensures fontLoaded ==> font == loadedFonts[fontKey]
    {
      native := ctx.current;
      prev := ctx.current;
      fontKey := FontKey(Some(""), DefaultFontSize);
      fontLoaded := FontKey(Some(""), DefaultFontSize) in loadedFonts;
      font := if FontKey(Some(""), DefaultFontSize) in loadedFonts then loadedFonts[FontKey(Some(""), DefaultFontSize)] else 0;
      pushed := false;
      fontPushed := false;
    }

    /** Style(Style): the other style's values and font key, not its push state. */
    constructor Copy(other: Style, loadedFonts: map<FontKey, int>)
      ensures Valid() && !pushed && !fontPushed
      ensures native == other.native && fontKey == other.fontKey
      ensures fontLoaded <==> fontKey in loadedFonts
      ensures fontLoaded ==> font == loadedFonts[fontKey]
    {
      native := other.native;
      prev := other.native;
      fontKey := other.fontKey;
      fontLoaded := other.fontKey in loadedFonts;
      font := if other.fontKey in loadedFonts then loadedFonts[other.fontKey] else 0;
      pushed := false;
      fontPushed := false;
    }

    /** The `Font` setter: store the key and look it up in the loaded-font table. */
    method SetFont(key: FontKey, loadedFonts: map<FontKey, int>)
      modifies this
      ensures fontKey == key
      ensures fontLoaded <==> key in loadedFonts
      ensures fontLoaded ==> font == loadedFonts[key]
      ensures !fontLoaded ==> font == old(font)
      ensures native == old(native) && prev == old(prev)
      ensures pushed == old(pushed) && fontPushed == old(fontPushed)
    {
      fontKey := key;
      fontLoaded := key in loadedFonts;
      if fontLoaded {
        font := loadedFonts[key];
      }
    }

    /** `FontName = name`: the key keeps its size. */
    method SetFontName(name: Option<string>, loadedFonts: map<FontKey, int>)
      modifies this
      ensures fontKey == FontKey(name, old(fontKey.size))
      ensures fontLoaded <==> fontKey in loadedFonts
      ensures fontLoaded ==> font == loadedFonts[fontKey]
      ensures !fontLoaded ==> font == old(font)
      ensures native == old(native) && prev == old(prev)
      ensures pushed == old(pushed) && fontPushed == old(fontPushed)
    {
      SetFont(FontKey(name, fontKey.size), loadedFonts);
    }

    /** `FontSize = size`: the key keeps its name. */
    method SetFontSize(size: int, loadedFonts: map<FontKey, int>)
      modifies this
      ensures fontKey == FontKey(old(fontKey.name), size)
      ensures fontLoaded <==> fontKey in loadedFonts
      ensures fontLoaded ==> font == loadedFonts[fontKey]
      ensures !fontLoaded ==> font == old(font)
      ensures native == old(native) && prev == old(prev)
      ensures pushed == old(pushed) && fontPushed == old(fontPushed)
    {
      SetFont(FontKey(fontKey.name, size), loadedFonts);
    }

    method SetPaddings(v: Vec2)
      modifies this
      ensures native == old(native).WithPaddings(v)
      ensures prev == old(prev) && font == old(font) && fontKey == old(fontKey)
      ensures pushed == old(pushed) && fontPushed == old(fontPushed) && fontLoaded == old(fontLoaded)
    {
      native := native.WithPaddings(v);
    }

    method SetBorders(v: real)
      modifies this
      ensures native == old(native).WithBorders(v)
      ensures prev == old(prev) && font == old(font) && fontKey == old(fontKey)
      ensures pushed == old(pushed) && fontPushed == old(fontPushed) && fontLoaded == old(fontLoaded)
    {
      native := native.WithBorders(v);
    }

    method SetRounding(v: real)
      modifies this
      ensures native == old(native).WithRoundings(v)
      ensures prev == old(prev) && font == old(font) && fontKey == old(fontKey)
      ensures pushed == old(pushed) && fontPushed == old(fontPushed) && fontLoaded == old(fontLoaded)
    {
      native := native.WithRoundings(v);
    }

    method SetAligns(v: Vec2)
      modifies this
      ensures native == old(native).WithAligns(v)
      ensures prev == old(prev) && font == old(font) && fontKey == old(fontKey)
      ensures pushed == old(pushed) && fontPushed == old(fontPushed) && fontLoaded == old(fontLoaded)
    {
      native := native.WithAligns(v);
    }

    /**
     * Push: nothing when already pushed; otherwise save ImGui's current style,
     * push the font when it is loaded, and make this style current.
     */
    method Push(ctx: ImGuiContext)
      requires Valid()
      modifies this, ctx
      ensures Valid()
      ensures old(pushed) ==> unchanged(this) && unchanged(ctx)
      ensures !old(pushed) ==> pushed && prev == old(ctx.current) && ctx.current == native
      ensures !old(pushed) ==> fontPushed == fontLoaded
      ensures !old(pushed) ==> ctx.fonts == old(ctx.fonts) + (if fontLoaded then [font] else [])
      ensures native == old(native) && font == old(font) && fontKey == old(fontKey)
      ensures fontLoaded == old(fontLoaded)
    {
      if pushed {
        return;
      }
      pushed := true;
      prev := ctx.current;
      if fontLoaded {
        ctx.fonts := ctx.fonts + [font];
        fontPushed := true;
      }
      ctx.current := native;
    }

    /**
     * Pop: nothing when not pushed; otherwise pop the font if this style
     * pushed one, and make the saved style current again.
     */
    method Pop(ctx: ImGuiContext)
      requires Valid()
      modifies this, ctx
      ensures Valid()
      ensures !old(pushed) ==> unchanged(this) && unchanged(ctx)
      ensures old(pushed) ==> !pushed && !fontPushed && ctx.current == prev
      ensures old(pushed) ==> ctx.fonts == if old(fontPushed) then PopTop(old(ctx.fonts)) else old(ctx.fonts)
      ensures native == old(native) && prev == old(prev) && font == old(font)
      ensures fontKey == old(fontKey) && fontLoaded == old(fontLoaded)
    {
      if !pushed {
        return;
      }
      pushed := false;
      if fontPushed {
        ctx.fonts := PopTop(ctx.fonts);
        fontPushed := false;
      }
      ctx.current := prev;
    }

    /**
     * SetFrom: copy every state field of `other`, the push state included;
     * the font key only when the other style's font name is not null.
     */
    method SetFrom(other: Style)
      requires other.Valid()
      modifies this
      ensures Valid()
      ensures prev == old(other.prev) && native == old(other.native) && font == old(other.font)
      ensures fontKey == if old(other.fontKey.name).Some? then old(other.fontKey) else old(fontKey)
      ensures pushed == old(other.pushed) && fontPushed == old(other.fontPushed)
      ensures fontLoaded == old(other.fontLoaded)
    {
      var key := other.fontKey;
      var otherPushed, otherFontPushed := other.pushed, other.fontPushed;
      prev := other.prev;
      native := other.native;
      font := other.font;
      if key.name.Some? {
        fontKey := key;
      }
      pushed := otherPushed;
      fontPushed := otherFontPushed;
      fontLoaded := other.fontLoaded;
    }
  }

  /** Push followed by Pop leaves ImGui's style and font stack as they were. */
  method PushThenPop(style: Style, ctx: ImGuiContext)
    requires style.Valid() && !style.pushed
    modifies style, ctx
    ensures ctx.current == old(ctx.current) && ctx.fonts == old(ctx.fonts)
    ensures !style.pushed && !style.fontPushed && style.native == old(style.native)
  {
    style.Push(ctx);
    style.Pop(ctx);
  }

  /** Two styles pushed and popped in reverse order restore ImGui's state. */
  method NestedPushPop(outer: Style, inner: Style, ctx: ImGuiContext)
    requires outer != inner
    requires outer.Valid() && inner.Valid() && !outer.pushed && !inner.pushed
    modifies outer, inner, ctx
    ensures ctx.current == old(ctx.current) && ctx.fonts == old(ctx.fonts)
  {
    outer.Push(ctx);
    ghost var between := ctx.current;
    ghost var stack := ctx.fonts;
    inner.Push(ctx);
    inner.Pop(ctx);
    assert ctx.current == between && ctx.fonts == stack;
    outer.Pop(ctx);
  }

  /** An ICoreClientAPI, as far as a window style uses it: loading a texture. */
  datatype ClientApi = ClientApi(getOrLoadTexture: string -> Option<int>)

  /**
   * The texture id the BackgroundTexture setter stores: -1 without an API or
   * when loading throws (`None`), the loaded id otherwise.
   */
  function LoadedTexture(api: Option<ClientApi>, path: string): (t: int)
    ensures api.None? ==> t == -1
    ensures api.Some? && api.value.getOrLoadTexture(path).None? ==> t == -1
    ensures api.Some? && api.value.getOrLoadTexture(path).Some? ==> t == api.value.getOrLoadTexture(path).value
  {
    match api
    case None => -1
    case Some(a) =>
      match a.getOrLoadTexture(path)
      case None => -1
      case Some(id) => id
  }

  /** What `SetFrom` receives: a plain style or a window style. */
  datatype StyleRef = PlainStyle(style: Style) | WindowStyleRef(window: WindowStyle)

  function BaseOf(src: StyleRef): Style {
    match src
    case PlainStyle(s) => s
    case WindowStyleRef(w) => w.base
  }

  /**
   * WindowStyle: a Style (held as `base`, since the model has no class
   * inheritance) plus window flags and a tiled background texture.
   */
  class WindowStyle {
    const base: Style
    var api: Option<ClientApi>
    var texture: int
    var texturePath: string
    var textureSize: Vec2
    var applied: bool
    var flags: WindowFlags

    /** Every constructor: the base style built as the matching Style constructor does, no texture, no flags. */
    constructor (api: Option<ClientApi>, base: Style)
      ensures this.base == base && this.api == api
      ensures texture == -1 && texturePath == "" && textureSize == Vec2(-1.0, -1.0)
      ensures !applied && flags == WindowFlags({})
    {
      this.base := base;
      this.api := api;
      texture := -1;
      texturePath := "";
      textureSize := Vec2(-1.0, -1.0);
      applied := false;
      flags := WindowFlags({});
    }

    /** The BackgroundTexture setter: store the path and (re)load the texture. */
    method SetBackgroundTexture(path: string)
      modifies this
      ensures texturePath == path && texture == LoadedTexture(api, path)
      ensures api == old(api) && textureSize == old(textureSize)
      ensures applied == old(applied) && flags == old(flags)
    {
      texturePath := path;
      texture := LoadedTexture(api, path);
    }

    /** The BackgroundTextureApplied getter. */
    predicate BackgroundTextureApplied()
      reads this
    {
      texture > 0 && textureSize.x > 0.0 && textureSize.y > 0.0 && applied
    }

    /**
     * The BackgroundTextureApplied setter: `true` reloads the stored path and
     * marks it applied; `false` forgets the texture id and unmarks it.
     */
    method SetBackgroundTextureApplied(b: bool)
      modifies this
      ensures applied == b && texturePath == old(texturePath)
      ensures b ==> texture == LoadedTexture(api, texturePath)
      ensures !b ==> texture == -1 && !BackgroundTextureApplied()
      ensures b ==> (BackgroundTextureApplied() <==> texture > 0 && textureSize.x > 0.0 && textureSize.y > 0.0)
      ensures api == old(api) && textureSize == old(textureSize) && flags == old(flags)
    {
      if b {
        SetBackgroundTexture(texturePath);
        applied := true;
      } else {
        texture := -1;
        applied := false;
      }
    }

    /** Begin: push the style, open the window (ImGui's answer is `began`), tile the texture if applied. */
    method Begin(ctx: ImGuiContext, began: bool) returns (start: bool, tiled: bool)
      requires base.Valid()
      modifies base, ctx
      ensures base.Valid() && start == began
      ensures tiled == BackgroundTextureApplied()
      ensures old(base.pushed) ==> unchanged(base) && unchanged(ctx)
      ensures !old(base.pushed) ==> base.pushed && base.prev == old(ctx.current) && ctx.current == base.native
      ensures !old(base.pushed) ==> base.fontPushed == base.fontLoaded
      ensures !old(base.pushed) ==> ctx.fonts == old(ctx.fonts) + (if base.fontLoaded then [base.font] else [])
      ensures base.native == old(base.native) && base.font == old(base.font)
      ensures base.fontKey == old(base.fontKey) && base.fontLoaded == old(base.fontLoaded)
    {
      base.Push(ctx);
      start := began;
      tiled := BackgroundTextureApplied();
    }

    /** End: pop the style. */
    method End(ctx: ImGuiContext)
      requires base.Valid()
      modifies base, ctx
      ensures base.Valid() && !base.pushed
      ensures !old(base.pushed) ==> unchanged(base) && unchanged(ctx)
      ensures old(base.pushed) ==> !base.fontPushed && ctx.current == base.prev
      ensures old(base.pushed) ==> ctx.fonts == if old(base.fontPushed) then PopTop(old(ctx.fonts)) else old(ctx.fonts)
      ensures base.native == old(base.native) && base.prev == old(base.prev) && base.font == old(base.font)
      ensures base.fontKey == old(base.fontKey) && base.fontLoaded == old(base.fontLoaded)
    {
      base.Pop(ctx);
    }

    /** After deserialisation: take the API and reload the texture if it was applied. */
    method OnDeserialization(client: ClientApi)
      modifies this
      ensures api == Some(client) && applied == old(applied) && texturePath == old(texturePath)
      ensures old(applied) ==> texture == LoadedTexture(api, texturePath)
      ensures !old(applied) ==> texture == old(texture)
      ensures textureSize == old(textureSize) && flags == old(flags)
    {
      api := Some(client);
      if applied {
        SetBackgroundTexture(texturePath);
      }
    }

    /**
     * SetFrom: the base style's SetFrom; then, only when the source is a
     * window style, its flags, texture id, size, path and API. The applied
     * mark is not copied.
     */
    method SetFrom(src: StyleRef)
      requires BaseOf(src).Valid()
      modifies this, base
      ensures base.Valid()
      ensures base.prev == old(BaseOf(src).prev) && base.native == old(BaseOf(src).native)
      ensures base.font == old(BaseOf(src).font)
      ensures base.fontKey == if old(BaseOf(src).fontKey.name).Some? then old(BaseOf(src).fontKey) else old(base.fontKey)
      ensures base.pushed == old(BaseOf(src).pushed) && base.fontPushed == old(BaseOf(src).fontPushed)
      ensures base.fontLoaded == old(BaseOf(src).fontLoaded)
      ensures applied == old(applied)
      ensures src.WindowStyleRef? ==>
        && flags == old(src.window.flags) && texture == old(src.window.texture)
        && textureSize == old(src.window.textureSize) && texturePath == old(src.window.texturePath)
        && api == old(src.window.api)
      ensures src.PlainStyle? ==>
        && flags == old(flags) && texture == old(texture) && textureSize == old(textureSize)
        && texturePath == old(texturePath) && api == old(api)
    {
      if src.WindowStyleRef? {
        var w := src.window;
        var f, t, size, path, a := w.flags, w.texture, w.textureSize, w.texturePath, w.api;
        base.SetFrom(BaseOf(src));
        flags, texture, textureSize, texturePath, api := f, t, size, path, a;
      } else {
        base.SetFrom(BaseOf(src));
      }
    }
  }

  /** Pushes a style for its lifetime; disposing pops it at most once. */
  class StyleApplier {
    const style: Style
    var disposedValue: bool

    constructor (style: Style, ctx: ImGuiContext)
      requires style.Valid()
      modifies style, ctx
      ensures this.style == style && !disposedValue && style.Valid()
      ensures old(style.pushed) ==> unchanged(style) && unchanged(ctx)
      ensures !old(style.pushed) ==> style.pushed && style.prev == old(ctx.current) && ctx.current == style.native
      ensures !old(style.pushed) ==> style.fontPushed == style.fontLoaded
      ensures !old(style.pushed) ==> ctx.fonts == old(ctx.fonts) + (if style.fontLoaded then [style.font] else [])
    {
      this.style := style;
      disposedValue := false;
      new;
      style.Push(ctx);
    }

    /** Dispose(bool): the first call pops when disposing; every call after it does nothing. */
    method DisposeCore(disposing: bool, ctx: ImGuiContext)
      requires style.Valid()
      modifies this, style, ctx
      ensures disposedValue && style.Valid()
      ensures old(disposedValue) || !disposing ==> unchanged(style) && unchanged(ctx)
      ensures !old(disposedValue) && disposing ==> !style.pushed && style.prev == old(style.prev)
      ensures !old(disposedValue) && disposing && old(style.pushed) ==> ctx.current == style.prev
      ensures !old(disposedValue) && disposing ==>
        ctx.fonts == if old(style.pushed) && old(style.fontPushed) then PopTop(old(ctx.fonts)) else old(ctx.fonts)
    {
      if !disposedValue {
        if disposing {
          style.Pop(ctx);
        }
        disposedValue := true;
      }
    }

    method Dispose(ctx: ImGuiContext)
      requires style.Valid()
      modifies this, style, ctx
      ensures disposedValue && style.Valid()
      ensures old(disposedValue) ==> unchanged(style) && unchanged(ctx)
      ensures !old(disposedValue) ==> !style.pushed && style.prev == old(style.prev)
      ensures !old(disposedValue) && old(style.pushed) ==> ctx.current == style.prev
      ensures !old(disposedValue) ==>
        ctx.fonts == if old(style.pushed) && old(style.fontPushed) then PopTop(old(ctx.fonts)) else old(ctx.fonts)
    {
      DisposeCore(true, ctx);
    }
  }

  /** A `using` block: the style is current inside it, and ImGui's state is restored after. */
  method UsingBlockRestores(style: Style, ctx: ImGuiContext)
    requires style.Valid() && !style.pushed
    modifies style, ctx
    ensures ctx.current == old(ctx.current) && ctx.fonts == old(ctx.fonts) && !style.pushed
  {
    var applier := new StyleApplier(style, ctx);
    assert ctx.current == style.native;
    applier.Dispose(ctx);
  }

  /**
   * Disposing twice pops once: after the first Dispose, the style can be pushed
   * again elsewhere and a second Dispose leaves that push in place.
   */
  method SecondDisposeKeepsLaterPush(style: Style, ctx: ImGuiContext)
    requires style.Valid() && !style.pushed
    modifies style, ctx
    ensures style.pushed && ctx.current == style.native
  {
    var applier := new StyleApplier(style, ctx);
    applier.Dispose(ctx);
    style.Push(ctx);
    applier.Dispose(ctx);
  }
}
