/** The logic of `ProjectMGUI` that does not draw: the visibility flag, the
    toast that a notification leaves for the next frame, the permanent
    preset text derived from a `"PRESET:"` toast, the gate at the top of
    `Draw`, and the two loops of `DrawPermText` that choose a font and lay
    out the rating stars. What ImGui would draw is returned as a `Frame`. */
module Gui {
  import opened CText
  import PresetStore
  import opened Wrapper

  /** The text after the last '/', or all of it when there is none:
      `find_last_of` returning `npos` gives `npos + 1`, which is 0. */
  function AfterLastSlash(p: string): (q: string)
    ensures '/' !in q
    ensures '/' !in p ==> q == p
    ensures |q| <= |p| && q == p[|p| - |q|..]
    ensures '/' in p ==> |q| < |p| && p[|p| - |q| - 1] == '/'
  {
    match FindLast(p, '/')
    case None => p
    case Some(i) => p[i + 1..]
  }

  /** `substr(0, size() - 5)`: drops the last five characters; on a shorter
      string `size() - 5` wraps round and the whole string is kept. */
  function DropExtension(q: string): (r: string)
    ensures |q| >= 5 ==> |r| == |q| - 5 && r == q[..|r|]
    ensures |q| < 5 ==> r == q
  {
    if |q| >= 5 then q[..|q| - 5] else q
  }

  /** The permanent text for a `"PRESET:"` toast: `substr(strlen("PRESET:")
      - 1)` drops six characters, so the ':' stays; then the path and the
      five-character extension go. */
  function PermTextOf(text: string): (r: string)
    requires "PRESET:" <= text
    ensures '/' !in r
  {
    DropExtension(AfterLastSlash(text[6..]))
  }

  /** A toast naming a preset file inside a directory gives the bare preset
      name: the prefix, the directories and `.milk` are all removed. */
  lemma PermTextOfPath(dir: string, name: string)
    requires '/' !in name
    ensures PermTextOf("PRESET:" + dir + "/" + name + ".milk") == name
  {
    var text := "PRESET:" + dir + "/" + name + ".milk";
    var p := text[6..];
    assert p == ":" + dir + "/" + name + ".milk";
    var slash := 1 + |dir|;
    assert p[slash] == '/';
    forall k | slash < k < |p| ensures p[k] != '/' {
      if k < slash + 1 + |name| {
        assert p[k] == name[k - slash - 1];
      }
    }
    LastAt(p, '/', slash);
    assert p[slash + 1..] == name + ".milk";
    assert (name + ".milk")[..|name|] == name;
  }

  /** Without a directory the ':' of the prefix is kept in front of the name. */
  lemma PermTextOfBareName(name: string)
    requires '/' !in name
    ensures PermTextOf("PRESET:" + name + ".milk") == ":" + name
  {
    var text := "PRESET:" + name + ".milk";
    var p := text[6..];
    assert p == ":" + name + ".milk";
    assert '/' !in p by {
      forall k | 0 <= k < |p| ensures p[k] != '/' {
        if 1 <= k < 1 + |name| {
          assert p[k] == name[k - 1];
        }
      }
    }
    assert (":" + name + ".milk")[..1 + |name|] == ":" + name;
  }

  /** Without a '/', the ':' of the prefix stays in front of the text unless
      the text after `"PRESET"` is exactly five characters long, which
      `substr(0, size() - 5)` empties. */
  lemma PermTextKeepsColon(text: string)
    requires "PRESET:" <= text && '/' !in text[6..] && |text| != 11
    ensures |PermTextOf(text)| > 0 && PermTextOf(text)[0] == ':'
  {
    assert text[6..][0] == text[6] == ':';
  }

  /** A toast `"PRESET:"` followed by four characters and no '/' leaves an
      empty text: the ':' goes with the other four. */
  lemma PermTextOfFourChars(name: string)
    requires '/' !in name && |name| == 4
    ensures PermTextOf("PRESET:" + name) == ""
  {
    var text := "PRESET:" + name;
    assert text[6..] == ":" + name;
  }

  /** A name part shorter than five characters is kept whole. */
  lemma PermTextOfShortName(dir: string, name: string)
    requires '/' !in name && |name| < 5
    ensures PermTextOf("PRESET:" + dir + "/" + name) == name
  {
    var text := "PRESET:" + dir + "/" + name;
    var p := text[6..];
    assert p == ":" + dir + "/" + name;
    var slash := 1 + |dir|;
    assert p[slash] == '/';
    forall k | slash < k < |p| ensures p[k] != '/' {
      assert p[k] == name[k - slash - 1];
    }
    LastAt(p, '/', slash);
    assert p[slash + 1..] == name;
  }

  datatype Star = Filled | Empty

  /** The star row of a rating: `rating` filled stars (none for a negative
      rating), then `5 - rating` empty ones. */
  predicate IsStarRow(row: seq<Star>, rating: int)
  {
    && |row| == (if rating > 0 then rating else 0) + (5 - rating)
    && forall i :: 0 <= i < |row| ==> (row[i] == Filled <==> i < rating)
  }

  /** The two loops of `DrawPermText` that lay out the stars. With a rating
      above 5, `i2` starts negative and `while (i2)` does not end, and
      `5 - rating` must not overflow. */
  method StarRow(rating: Int32) returns (row: seq<Star>)
    requires rating <= 5 && 5 - rating <= INT32_MAX
    ensures IsStarRow(row, rating)
    ensures 0 <= rating ==> |row| == 5
  {
    row := [];
    var i := 0;
    while i < rating
      invariant 0 <= i && (rating > 0 ==> i <= rating)
      invariant rating <= 0 ==> i == 0
      invariant |row| == i && forall k :: 0 <= k < i ==> row[k] == Filled
    {
      row := row + [Filled];
      i := i + 1;
    }
    var i2 := 5 - rating;
    while i2 != 0
      invariant 0 <= i2 <= 5 - rating
      invariant |row| == i + (5 - rating - i2)
      invariant forall k :: 0 <= k < i ==> row[k] == Filled
      invariant forall k :: i <= k < |row| ==> row[k] == Empty
    {
      row := row + [Empty];
      i2 := i2 - 1;
    }
  }

  /** Every rating the store can hold gives a row of five stars, as many of
      them filled as the rating. */
  lemma StarRowOfStoredRating(row: seq<Star>, rating: int)
    requires 0 <= rating <= 5 && IsStarRow(row, rating)
    ensures |row| == 5
    ensures row == seq(rating, _ => Filled) + seq(5 - rating, _ => Empty)
  {
    var expected := seq(rating, _ => Filled) + seq(5 - rating, _ => Empty);
    forall k | 0 <= k < 5 ensures row[k] == expected[k] {
      if k < rating {
        assert row[k] == Filled;
      } else {
        assert row[k] != Filled;
      }
    }
  }

  /** The five HUD fonts, in the order of `FontList`. */
  datatype Font = KaffeeFont | DejavuFontL | ToastFont | DejavuFont | UIFont

  const FontList: seq<Font> := [KaffeeFont, DejavuFontL, ToastFont, DejavuFont, UIFont]

  /** The position of a font in `FontList`. */
  function FontIndex(f: Font): (i: nat)
    ensures i < |FontList| && FontList[i] == f
  {
    match f
    case KaffeeFont => 0
    case DejavuFontL => 1
    case ToastFont => 2
    case DejavuFont => 3
    case UIFont => 4
  }

  /** The font the fallback settles on: the first of the first four fonts
      in which the text is no wider than the space available, or the fifth
      when none of them is. `measure` stands for `CalcTextSize(...).x`
      truncated to `int`. */
  predicate IsFallbackChoice(measure: (Font, string) -> int, text: string, available: int, chosen: nat)
  {
    && chosen < |FontList|
    && (forall j :: 0 <= j < chosen ==> measure(FontList[j], text) > available)
    && (chosen < |FontList| - 1 ==> measure(FontList[chosen], text) <= available)
  }

  /** There is one such font for a given text and width. */
  lemma FallbackChoiceUnique(measure: (Font, string) -> int, text: string, available: int, a: nat, b: nat)
    requires IsFallbackChoice(measure, text, available, a)
    requires IsFallbackChoice(measure, text, available, b)
    ensures a == b
  {
  }

  /** The font-fallback `do ... while` of `DrawPermText`: each pass pushes
      `FontList[font_index++]`, stops once the index passes 4, and otherwise
      measures the text, going on while it is wider than the space
      available. Returns the index of the font left pushed. */
  method FontFallback(measure: (Font, string) -> int, text: string, available: int) returns (chosen: nat)
    ensures IsFallbackChoice(measure, text, available, chosen)
  {
    var fontIndex := 0;
    while true
      invariant 0 <= fontIndex <= 4
      invariant forall j :: 0 <= j < fontIndex ==> measure(FontList[j], text) > available
      decreases 5 - fontIndex
    {
      var pushed := fontIndex;
      fontIndex := fontIndex + 1;
      if fontIndex > 4 {
        chosen := pushed;
        return;
      }
      var textWidth := measure(FontList[pushed], text);
      if !(textWidth > available) {
        chosen := pushed;
        return;
      }
    }
  }

  /** What `DrawPermText` draws: the text in the chosen font, the star row
      and the play count. */
  datatype Hud = Hud(text: string, font: Font, stars: seq<Star>, playcount: Int32)

  /** One call of `Draw`: nothing at all, or a frame with the menus drawn
      or not and the HUD drawn or not. */
  datatype Frame = Skipped | Rendered(menus: bool, hud: Option<Hud>)

  /** What `DrawPermText` reads from outside: the window width, the
      `projectM.shuffleEnabled` and `projectM.presetLocked` settings (read
      with a default of true) and the widths of their icons. */
  datatype Layout = Layout(
    windowWidth: int, shuffleEnabled: bool, shuffleImageWidth: int,
    presetLocked: bool, lockImageWidth: int)

  /** The width the text may take: the window less the icons in front of
      it and 32 pixels. */
  function AvailableWidth(layout: Layout): (w: int)
    ensures !layout.shuffleEnabled && !layout.presetLocked ==> w == layout.windowWidth - 32
    ensures layout.shuffleImageWidth >= 0 && layout.lockImageWidth >= 0 ==> w <= layout.windowWidth - 32
  {
    layout.windowWidth
      - ((if layout.shuffleEnabled then layout.shuffleImageWidth else 0)
         + (if layout.presetLocked then layout.lockImageWidth else 0) + 32)
  }

  class ProjectMGUI {
    var visible: bool
    var permTextVisible: bool
    var permText: string
    /** `_toast`: the text of the pending toast, if any. */
    var toast: Option<string>

    constructor ()
      ensures !visible && permTextVisible && permText == "" && toast == None
    {
      visible := false;
      permTextVisible := true;
      permText := "";
      toast := None;
    }

    method Toggle()
      modifies this`visible
      ensures visible == !old(visible)
    {
      visible := !visible;
    }

    /** `Visible(bool)`. */
    method SetVisible(v: bool)
      modifies this`visible
      ensures Visible() == v
    {
      visible := v;
    }

    /** `Visible()`. */
    function Visible(): bool
      reads this
    {
      visible
    }

    /** A toast notification: kept for the next frame when toasts are
        enabled in the configuration. */
    method DisplayToastNotificationHandler(text: string, displayToasts: bool)
      modifies this`toast
      ensures toast == if displayToasts then Some(text) else old(toast)
    {
      if displayToasts {
        toast := Some(text);
      }
    }

    /** The permanent text once the pending toast has been looked at. */
    function PermTextAfterToast(): (t: string)
      reads this
      ensures toast.None? ==> t == permText
      ensures toast.Some? && !("PRESET:" <= toast.value) ==> t == permText
      ensures toast.Some? && "PRESET:" <= toast.value ==> t == PermTextOf(toast.value)
    {
      match toast
      case Some(text) => if "PRESET:" <= text then PermTextOf(text) else permText
      case None => permText
    }

    /** Whether this frame draws the HUD. */
    predicate DrawsHud()
      reads this
    {
      permTextVisible && !visible && |PermTextAfterToast()| > 0
    }

    /** One frame. Nothing happens when there is no toast and neither the
        menus nor the permanent text are visible. Otherwise the toast is
        consumed, a `"PRESET:"` toast setting the permanent text; the menus
        are drawn when visible; and the HUD when the permanent text is
        visible, the menus are not and the text is not empty. The HUD reads
        the current rating and then the play count through `operator[]`,
        which inserts a record for a preset that has none. */
    method Draw(wrapper: ProjectMWrapper, engineRating: Int32, layout: Layout,
                measure: (Font, string) -> int) returns (frame: Frame)
      requires DrawsHud() ==> wrapper.GetRating(engineRating) <= 5
      requires DrawsHud() ==> 5 - wrapper.GetRating(engineRating) <= INT32_MAX
      modifies this`toast, this`permText, wrapper`dbpm
      ensures old(toast).None? && !visible && !permTextVisible ==>
                frame == Skipped && unchanged(this) && unchanged(wrapper)
      ensures old(toast).Some? || visible || permTextVisible ==>
                && toast == None
                && permText == old(PermTextAfterToast())
                && frame.Rendered? && frame.menus == visible
                && (frame.hud.Some? <==> old(DrawsHud()))
      ensures frame.Rendered? && frame.hud.Some? ==>
                && frame.hud.value.text == CStr(permText)
                && IsFallbackChoice(measure, CStr(permText), AvailableWidth(layout), FontIndex(frame.hud.value.font))
                && IsStarRow(frame.hud.value.stars, old(wrapper.GetRating(engineRating)))
                && frame.hud.value.playcount == PresetStore.Record(old(wrapper.dbpm), wrapper.presetName).playcount
                && wrapper.dbpm == PresetStore.Subscript(old(wrapper.dbpm), wrapper.presetName)
      ensures frame.Skipped? || frame.hud.None? ==> wrapper.dbpm == old(wrapper.dbpm)
    {
      if toast.None? && !visible && !permTextVisible {
        return Skipped;
      }
      if toast.Some? {
        if "PRESET:" <= toast.value {
          permText := PermTextOf(toast.value);
        }
        toast := None;
      }
      var hud: Option<Hud> := None;
      if permTextVisible && !visible {
        if |permText| > 0 {
          var h := DrawPermText(wrapper, engineRating, layout, measure);
          hud := Some(h);
        }
      }
      frame := Rendered(visible, hud);
    }

    /** The HUD: the font the text fits in, the star row of the current
        rating and the current play count. */
    method DrawPermText(wrapper: ProjectMWrapper, engineRating: Int32, layout: Layout,
                        measure: (Font, string) -> int) returns (hud: Hud)
      requires wrapper.GetRating(engineRating) <= 5 && 5 - wrapper.GetRating(engineRating) <= INT32_MAX
      modifies wrapper`dbpm
      ensures hud.text == CStr(permText)
      ensures IsFallbackChoice(measure, CStr(permText), AvailableWidth(layout), FontIndex(hud.font))
      ensures IsStarRow(hud.stars, old(wrapper.GetRating(engineRating)))
      ensures hud.playcount == PresetStore.Record(old(wrapper.dbpm), wrapper.presetName).playcount
      ensures wrapper.dbpm == PresetStore.Subscript(old(wrapper.dbpm), wrapper.presetName)
    {
      var cursorX := 0;
      if layout.shuffleEnabled {
        cursorX := cursorX + layout.shuffleImageWidth;
      }
      if layout.presetLocked {
        cursorX := cursorX + layout.lockImageWidth;
      }
      cursorX := cursorX + 32;
      var ww := layout.windowWidth - cursorX;
      var fontIndex := FontFallback(measure, CStr(permText), ww);
      var rating := wrapper.GetRating(engineRating);
      var playcount := wrapper.GetPlayCount();
      var stars := StarRow(rating);
      hud := Hud(CStr(permText), FontList[fontIndex], stars, playcount);
    }
  }
}
