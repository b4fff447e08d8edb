/**
 * The static tag registry of ReactDOM: every HTML and SVG tag name the
 * library knows, mapped to its `omitClose` flag. A tag whose flag is true is
 * rendered without its close tag.
 *
 * The registry is one object literal, listed alphabetically. Here it is
 * written as seventeen consecutive runs of that literal, each named by its
 * first and last tag, gathered into four groups, and `Registry` is their
 * union. Each run states which of its tags are void, so that facts about the
 * whole registry follow run by run.
 */
module TagRegistry {

  /** The sixteen tags whose close tag is omitted. */
  const VoidTags: set<string> :=
    {"area", "base", "br", "col", "embed", "hr",
     "img", "input", "keygen", "line", "link", "meta",
     "param", "source", "track", "wbr"}

  /** The key of the injection facility, which the live table also holds. */
  const InjectionKey: string := "injection"

  /** The entries from `a` to `animate`. */
  function RunAToAnimate(): map<string, bool>
  {
    map[
      "a" := false,
      "abbr" := false,
      "address" := false,
      "altGlyph" := false,
      "altGlyphDef" := false,
      "altGlyphItem" := false,
      "animAdditionAttrs" := false,
      "animAttributeAttrs" := false,
      "animElementAttrs" := false,
      "animTimingAttrs" := false,
      "animValueAttrs" := false,
      "animate" := false
    ]
  }

  /** Each tag here is void exactly when it is a void tag, and none is the injection key. */
  lemma RunAToAnimateFlags(tag: string)
    requires tag in RunAToAnimate()
    ensures tag != InjectionKey && (RunAToAnimate()[tag] <==> tag in VoidTags)
  {
  }

  /** The entries from `animateColor` to `bdi`. */
  function RunAnimateColorToBdi(): map<string, bool>
  {
    map[
      "animateColor" := false,
      "animateMotion" := false,
      "animateTransform" := false,
      "animationEvents" := false,
      "applet" := false,
      "area" := true,
      "article" := false,
      "aside" := false,
      "audio" := false,
      "b" := false,
      "base" := true,
      "bdi" := false
    ]
  }

  /** Each tag here is void exactly when it is a void tag, and none is the injection key. */
  lemma RunAnimateColorToBdiFlags(tag: string)
    requires tag in RunAnimateColorToBdi()
    ensures tag != InjectionKey && (RunAnimateColorToBdi()[tag] <==> tag in VoidTags)
  {
  }

  /** The entries from `bdo` to `code`. */
  function RunBdoToCode(): map<string, bool>
  {
    map[
      "bdo" := false,
      "big" := false,
      "blockquote" := false,
      "body" := false,
      "br" := true,
      "button" := false,
      "canvas" := false,
      "caption" := false,
      "circle" := false,
      "cite" := false,
      "clipPath" := false,
      "code" := false
    ]
  }

  /** Each tag here is void exactly when it is a void tag, and none is the injection key. */
  lemma RunBdoToCodeFlags(tag: string)
    requires tag in RunBdoToCode()
    ensures tag != InjectionKey && (RunBdoToCode()[tag] <==> tag in VoidTags)
  {
  }

  /** The entries from `col` to `desc`. */
  function RunColToDesc(): map<string, bool>
  {
    map[
      "col" := true,
      "colgroup" := false,
      "color-profile" := false,
      "command" := false,
      "cursor" := false,
      "data" := false,
      "datalist" := false,
      "dd" := false,
      "definition-src" := false,
      "defs" := false,
      "del" := false,
      "desc" := false
    ]
  }

  /** Each tag here is void exactly when it is a void tag, and none is the injection key. */
  lemma RunColToDescFlags(tag: string)
    requires tag in RunColToDesc()
    ensures tag != InjectionKey && (RunColToDesc()[tag] <==> tag in VoidTags)
  {
  }

  /** The entries from `details` to `feColorMatrix`. */
  function RunDetailsToFeColorMatrix(): map<string, bool>
  {
    map[
      "details" := false,
      "dfn" := false,
      "dialog" := false,
      "div" := false,
      "dl" := false,
      "documentEvents" := false,
      "dt" := false,
      "ellipse" := false,
      "em" := false,
      "embed" := true,
      "feBlend" := false,
      "feColorMatrix" := false
    ]
  }

  /** Each tag here is void exactly when it is a void tag, and none is the injection key. */
  lemma RunDetailsToFeColorMatrixFlags(tag: string)
    requires tag in RunDetailsToFeColorMatrix()
    ensures tag != InjectionKey && (RunDetailsToFeColorMatrix()[tag] <==> tag in VoidTags)
  {
  }

  /** The entries from `feComponentTransfer` to `feGaussianBlur`. */
  function RunFeComponentTransferToFeGaussianBlur(): map<string, bool>
  {
    map[
      "feComponentTransfer" := false,
      "feComposite" := false,
      "feConvolveMatrix" := false,
      "feDiffuseLighting" := false,
      "feDisplacementMap" := false,
      "feDistantLight" := false,
      "feFlood" := false,
      "feFuncA" := false,
      "feFuncB" := false,
      "feFuncG" := false,
      "feFuncR" := false,
      "feGaussianBlur" := false
    ]
  }

  /** Each tag here is void exactly when it is a void tag, and none is the injection key. */
  lemma RunFeComponentTransferToFeGaussianBlurFlags(tag: string)
    requires tag in RunFeComponentTransferToFeGaussianBlur()
    ensures tag != InjectionKey && (RunFeComponentTransferToFeGaussianBlur()[tag] <==> tag in VoidTags)
  {
  }

  /** The entries from `feImage` to `figcaption`. */
  function RunFeImageToFigcaption(): map<string, bool>
  {
    map[
      "feImage" := false,
      "feMerge" := false,
      "feMergeNode" := false,
      "feMorphology" := false,
      "feOffset" := false,
      "fePointLight" := false,
      "feSpecularLighting" := false,
      "feSpotLight" := false,
      "feTile" := false,
      "feTurbulence" := false,
      "fieldset" := false,
      "figcaption" := false
    ]
  }

  /** Each tag here is void exactly when it is a void tag, and none is the injection key. */
  lemma RunFeImageToFigcaptionFlags(tag: string)
    requires tag in RunFeImageToFigcaption()
    ensures tag != InjectionKey && (RunFeImageToFigcaption()[tag] <==> tag in VoidTags)
  {
  }

  /** The entries from `figure` to `g`. */
  function RunFigureToG(): map<string, bool>
  {
    map[
      "figure" := false,
      "filter" := false,
      "font" := false,
      "font-face" := false,
      "font-face-format" := false,
      "font-face-name" := false,
      "font-face-src" := false,
      "font-face-uri" := false,
      "footer" := false,
      "foreignObject" := false,
      "form" := false,
      "g" := false
    ]
  }

  /** Each tag here is void exactly when it is a void tag, and none is the injection key. */
  lemma RunFigureToGFlags(tag: string)
    requires tag in RunFigureToG()
    ensures tag != InjectionKey && (RunFigureToG()[tag] <==> tag in VoidTags)
  {
  }

  /** The entries from `glyph` to `hgroup`. */
  function RunGlyphToHgroup(): map<string, bool>
  {
    map[
      "glyph" := false,
      "glyphRef" := false,
      "graphicsElementEvents" := false,
      "h1" := false,
      "h2" := false,
      "h3" := false,
      "h4" := false,
      "h5" := false,
      "h6" := false,
      "head" := false,
      "header" := false,
      "hgroup" := false
    ]
  }

  /** Each tag here is void exactly when it is a void tag, and none is the injection key. */
  lemma RunGlyphToHgroupFlags(tag: string)
    requires tag in RunGlyphToHgroup()
    ensures tag != InjectionKey && (RunGlyphToHgroup()[tag] <==> tag in VoidTags)
  {
  }

  /** The entries from `hkern` to `label`. */
  function RunHkernToLabel(): map<string, bool>
  {
    map[
      "hkern" := false,
      "hr" := true,
      "html" := false,
      "i" := false,
      "iframe" := false,
      "image" := false,
      "img" := true,
      "input" := true,
      "ins" := false,
      "kbd" := false,
      "keygen" := true,
      "label" := false
    ]
  }

  /** Each tag here is void exactly when it is a void tag, and none is the injection key. */
  lemma RunHkernToLabelFlags(tag: string)
    requires tag in RunHkernToLabel()
    ensures tag != InjectionKey && (RunHkernToLabel()[tag] <==> tag in VoidTags)
  {
  }

  /** The entries from `langSpaceAttrs` to `mask`. */
  function RunLangSpaceAttrsToMask(): map<string, bool>
  {
    map[
      "langSpaceAttrs" := false,
      "legend" := false,
      "li" := false,
      "line" := true,
      "linearGradient" := false,
      "link" := true,
      "main" := false,
      "map" := false,
      "mark" := false,
      "marker" := false,
      "marquee" := false,
      "mask" := false
    ]
  }

  /** Each tag here is void exactly when it is a void tag, and none is the injection key. */
  lemma RunLangSpaceAttrsToMaskFlags(tag: string)
    requires tag in RunLangSpaceAttrsToMask()
    ensures tag != InjectionKey && (RunLangSpaceAttrsToMask()[tag] <==> tag in VoidTags)
  {
  }

  /** The entries from `menu` to `optgroup`. */
  function RunMenuToOptgroup(): map<string, bool>
  {
    map[
      "menu" := false,
      "menuitem" := false,
      "meta" := true,
      "metadata" := false,
      "meter" := false,
      "missing-glyph" := false,
      "mpath" := false,
      "nav" := false,
      "noscript" := false,
      "object" := false,
      "ol" := false,
      "optgroup" := false
    ]
  }

  /** Each tag here is void exactly when it is a void tag, and none is the injection key. */
  lemma RunMenuToOptgroupFlags(tag: string)
    requires tag in RunMenuToOptgroup()
    ensures tag != InjectionKey && (RunMenuToOptgroup()[tag] <==> tag in VoidTags)
  {
  }

  /** The entries from `option` to `radialGradient`. */
  function RunOptionToRadialGradient(): map<string, bool>
  {
    map[
      "option" := false,
      "output" := false,
      "p" := false,
      "param" := true,
      "path" := false,
      "pattern" := false,
      "polygon" := false,
      "polyline" := false,
      "pre" := false,
      "progress" := false,
      "q" := false,
      "radialGradient" := false
    ]
  }

  /** Each tag here is void exactly when it is a void tag, and none is the injection key. */
  lemma RunOptionToRadialGradientFlags(tag: string)
    requires tag in RunOptionToRadialGradient()
    ensures tag != InjectionKey && (RunOptionToRadialGradient()[tag] <==> tag in VoidTags)
  {
  }

  /** The entries from `rect` to `source`. */
  function RunRectToSource(): map<string, bool>
  {
    map[
      "rect" := false,
      "rp" := false,
      "rt" := false,
      "ruby" := false,
      "s" := false,
      "samp" := false,
      "script" := false,
      "section" := false,
      "select" := false,
      "set" := false,
      "small" := false,
      "source" := true
    ]
  }

  /** Each tag here is void exactly when it is a void tag, and none is the injection key. */
  lemma RunRectToSourceFlags(tag: string)
    requires tag in RunRectToSource()
    ensures tag != InjectionKey && (RunRectToSource()[tag] <==> tag in VoidTags)
  {
  }

  /** The entries from `span` to `table`. */
  function RunSpanToTable(): map<string, bool>
  {
    map[
      "span" := false,
      "stdAttrs" := false,
      "stop" := false,
      "strong" := false,
      "style" := false,
      "sub" := false,
      "summary" := false,
      "sup" := false,
      "svg" := false,
      "switch" := false,
      "symbol" := false,
      "table" := false
    ]
  }

  /** Each tag here is void exactly when it is a void tag, and none is the injection key. */
  lemma RunSpanToTableFlags(tag: string)
    requires tag in RunSpanToTable()
    ensures tag != InjectionKey && (RunSpanToTable()[tag] <==> tag in VoidTags)
  {
  }

  /** The entries from `tbody` to `tr`. */
  function RunTbodyToTr(): map<string, bool>
  {
    map[
      "tbody" := false,
      "td" := false,
      "testAttrs" := false,
      "text" := false,
      "textPath" := false,
      "textarea" := false,
      "tfoot" := false,
      "th" := false,
      "thead" := false,
      "time" := false,
      "title" := false,
      "tr" := false
    ]
  }

  /** Each tag here is void exactly when it is a void tag, and none is the injection key. */
  lemma RunTbodyToTrFlags(tag: string)
    requires tag in RunTbodyToTr()
    ensures tag != InjectionKey && (RunTbodyToTr()[tag] <==> tag in VoidTags)
  {
  }

  /** The entries from `track` to `wbr`. */
  function RunTrackToWbr(): map<string, bool>
  {
    map[
      "track" := true,
      "tref" := false,
      "tspan" := false,
      "u" := false,
      "ul" := false,
      "use" := false,
      "var" := false,
      "video" := false,
      "view" := false,
      "vkern" := false,
      "wbr" := true
    ]
  }

  /** Each tag here is void exactly when it is a void tag, and none is the injection key. */
  lemma RunTrackToWbrFlags(tag: string)
    requires tag in RunTrackToWbr()
    ensures tag != InjectionKey && (RunTrackToWbr()[tag] <==> tag in VoidTags)
  {
  }

  /** The runs from `a` to `feColorMatrix`. */
  function GroupAToFeColorMatrix(): map<string, bool>
  {
    RunAToAnimate() + RunAnimateColorToBdi() + RunBdoToCode() + RunColToDesc() + RunDetailsToFeColorMatrix()
  }

  /** Each tag here is void exactly when it is a void tag, and none is the injection key. */
  lemma GroupAToFeColorMatrixFlags(tag: string)
    requires tag in GroupAToFeColorMatrix()
    ensures tag != InjectionKey && (GroupAToFeColorMatrix()[tag] <==> tag in VoidTags)
  {
    if tag in RunAToAnimate() { RunAToAnimateFlags(tag); }
    if tag in RunAnimateColorToBdi() { RunAnimateColorToBdiFlags(tag); }
    if tag in RunBdoToCode() { RunBdoToCodeFlags(tag); }
    if tag in RunColToDesc() { RunColToDescFlags(tag); }
    if tag in RunDetailsToFeColorMatrix() { RunDetailsToFeColorMatrixFlags(tag); }
  }

  /** The runs from `feComponentTransfer` to `hgroup`. */
  function GroupFeComponentTransferToHgroup(): map<string, bool>
  {
    RunFeComponentTransferToFeGaussianBlur() + RunFeImageToFigcaption() + RunFigureToG() + RunGlyphToHgroup()
  }

  /** Each tag here is void exactly when it is a void tag, and none is the injection key. */
  lemma GroupFeComponentTransferToHgroupFlags(tag: string)
    requires tag in GroupFeComponentTransferToHgroup()
    ensures tag != InjectionKey && (GroupFeComponentTransferToHgroup()[tag] <==> tag in VoidTags)
  {
    if tag in RunFeComponentTransferToFeGaussianBlur() { RunFeComponentTransferToFeGaussianBlurFlags(tag); }
    if tag in RunFeImageToFigcaption() { RunFeImageToFigcaptionFlags(tag); }
    if tag in RunFigureToG() { RunFigureToGFlags(tag); }
    if tag in RunGlyphToHgroup() { RunGlyphToHgroupFlags(tag); }
  }

  /** The runs from `hkern` to `radialGradient`. */
  function GroupHkernToRadialGradient(): map<string, bool>
  {
    RunHkernToLabel() + RunLangSpaceAttrsToMask() + RunMenuToOptgroup() + RunOptionToRadialGradient()
  }

  /** Each tag here is void exactly when it is a void tag, and none is the injection key. */
  lemma GroupHkernToRadialGradientFlags(tag: string)
    requires tag in GroupHkernToRadialGradient()
    ensures tag != InjectionKey && (GroupHkernToRadialGradient()[tag] <==> tag in VoidTags)
  {
    if tag in RunHkernToLabel() { RunHkernToLabelFlags(tag); }
    if tag in RunLangSpaceAttrsToMask() { RunLangSpaceAttrsToMaskFlags(tag); }
    if tag in RunMenuToOptgroup() { RunMenuToOptgroupFlags(tag); }
    if tag in RunOptionToRadialGradient() { RunOptionToRadialGradientFlags(tag); }
  }

  /** The runs from `rect` to `wbr`. */
  function GroupRectToWbr(): map<string, bool>
  {
    RunRectToSource() + RunSpanToTable() + RunTbodyToTr() + RunTrackToWbr()
  }

  /** Each tag here is void exactly when it is a void tag, and none is the injection key. */
  lemma GroupRectToWbrFlags(tag: string)
    requires tag in GroupRectToWbr()
    ensures tag != InjectionKey && (GroupRectToWbr()[tag] <==> tag in VoidTags)
  {
    if tag in RunRectToSource() { RunRectToSourceFlags(tag); }
    if tag in RunSpanToTable() { RunSpanToTableFlags(tag); }
    if tag in RunTbodyToTr() { RunTbodyToTrFlags(tag); }
    if tag in RunTrackToWbr() { RunTrackToWbrFlags(tag); }
  }

  /** The whole registry literal: the union of its runs. */
  function Registry(): map<string, bool>
  {
    GroupAToFeColorMatrix() + GroupFeComponentTransferToHgroup() + GroupHkernToRadialGradient() + GroupRectToWbr()
  }

  /**
   * The flag of a registered tag is true exactly when the tag is one of
   * `VoidTags`: whichever run holds the tag decides its flag, and every run
   * agrees with `VoidTags`. Nor is any tag the injection key.
   */
  lemma VoidFlagsExact(tag: string)
    requires tag in Registry()
    ensures tag != InjectionKey
    ensures Registry()[tag] <==> tag in VoidTags
  {
    if tag in GroupAToFeColorMatrix() { GroupAToFeColorMatrixFlags(tag); }
    if tag in GroupFeComponentTransferToHgroup() { GroupFeComponentTransferToHgroupFlags(tag); }
    if tag in GroupHkernToRadialGradient() { GroupHkernToRadialGradientFlags(tag); }
    if tag in GroupRectToWbr() { GroupRectToWbrFlags(tag); }
  }

  /** Every void tag is registered, with the flag true. */
  lemma VoidTagsRegistered(tag: string)
    requires tag in VoidTags
    ensures tag in Registry() && Registry()[tag]
  {
    assert tag in RunAnimateColorToBdi() + RunBdoToCode() + RunColToDesc() + RunDetailsToFeColorMatrix() + RunHkernToLabel() + RunLangSpaceAttrsToMask() + RunMenuToOptgroup() + RunOptionToRadialGradient() + RunRectToSource() + RunTrackToWbr();
    VoidFlagsExact(tag);
  }

  /** `menuitem` is registered and not void: its close tag is kept on purpose. */
  lemma MenuitemNotVoid()
    ensures "menuitem" in Registry() && !Registry()["menuitem"]
  {
    assert "menuitem" in RunMenuToOptgroup();
    assert "menuitem" !in VoidTags;
    VoidFlagsExact("menuitem");
  }

  /** `form` is registered and not void; its factory is later replaced through injection. */
  lemma FormNotVoid()
    ensures "form" in Registry() && !Registry()["form"]
  {
    assert "form" in RunFigureToG();
    assert "form" !in VoidTags;
    VoidFlagsExact("form");
  }

  /** `textarea` is registered and not void; its factory is later replaced through injection. */
  lemma TextareaNotVoid()
    ensures "textarea" in Registry() && !Registry()["textarea"]
  {
    assert "textarea" in RunTbodyToTr();
    assert "textarea" !in VoidTags;
    VoidFlagsExact("textarea");
  }

  /** The key under which the injection facility is stored is not a tag. */
  lemma InjectionKeyNotATag()
    ensures InjectionKey !in Registry()
  {
    if InjectionKey in Registry() {
      VoidFlagsExact(InjectionKey);
    }
  }
}
