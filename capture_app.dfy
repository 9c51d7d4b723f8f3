/** The tray application of Program.cs: the hotkey parser, the selection rectangle of the
  * capture overlay, the capture settings copied with a new fixed region, and the guard that
  * keeps the three capture commands from running inside one another. */
module CaptureApp {
  import opened Wrappers
  import opened Text

  // ---------------------------------------------------------------------------
  // HotkeyParser
  // ---------------------------------------------------------------------------

  /** The fsModifiers bits of RegisterHotKey. */
  const ModAlt: bv32 := 0x0001
  const ModCtrl: bv32 := 0x0002
  const ModShift: bv32 := 0x0004
  const ModWin: bv32 := 0x0008

  /** (uint)Keys.Q */
  const KeyQ: nat := 0x51

  /** The characters a hotkey text is split at. */
  predicate IsHotkeySeparator(c: char) { c == '+' || c == '-' || c == ' ' }

  /** hotkey.Split('+', '-', ' ') with empty pieces dropped. */
  function HotkeyTokens(hotkey: string): seq<string> {
    RemoveEmpty(SplitOn(hotkey, IsHotkeySeparator))
  }

  /** ModLookup.TryGetValue(part): the four names, compared ignoring case. */
  function ModifierOf(part: string): Option<bv32> {
    if EqualsIgnoreCase(part, "CTRL") then Some(ModCtrl)
    else if EqualsIgnoreCase(part, "ALT") then Some(ModAlt)
    else if EqualsIgnoreCase(part, "SHIFT") then Some(ModShift)
    else if EqualsIgnoreCase(part, "WIN") then Some(ModWin)
    else None
  }

  /** The state of the token loop: the modifier bits so far and the key so far. */
  datatype Hotkey = Hotkey(modifiers: bv32, key: nat)

  /** One token: a modifier ORs its bit in; any other token that Enum.TryParse<Keys> accepts
    * (keyName, ignoring case) becomes the key. */
  function TokenStep(h: Hotkey, part: string, keyName: string -> Option<nat>): Hotkey {
    match ModifierOf(part)
    case Some(m) => h.(modifiers := h.modifiers | m)
    case None => if keyName(part).Some? then h.(key := keyName(part).value) else h
  }

  /** The token loop, from mods = 0 and key = Keys.Q. */
  function TokensFold(parts: seq<string>, keyName: string -> Option<nat>): Hotkey {
    if parts == [] then Hotkey(0, KeyQ)
    else TokenStep(TokensFold(parts[..|parts| - 1], keyName), parts[|parts| - 1], keyName)
  }

  /** HotkeyParser.Parse: Ctrl+Q for a blank text; otherwise the tokens' modifiers, CTRL when
    * there are none, and their key. */
  function ParseHotkey(hotkey: string, keyName: string -> Option<nat>): Hotkey {
    if IsBlank(hotkey) then Hotkey(ModCtrl, KeyQ)
    else
      var h := TokensFold(HotkeyTokens(hotkey), keyName);
      h.(modifiers := if h.modifiers == 0 then ModCtrl else h.modifiers)
  }

  /** The loop of HotkeyParser.Parse. */
  method Parse(hotkey: string, keyName: string -> Option<nat>) returns (modifiers: bv32, key: nat)
    ensures Hotkey(modifiers, key) == ParseHotkey(hotkey, keyName)
  {
    if IsBlank(hotkey) {
      return ModCtrl, KeyQ;
    }
    var parts := HotkeyTokens(hotkey);
    var mods: bv32 := 0;
    key := KeyQ;
    for i := 0 to |parts|
      invariant Hotkey(mods, key) == TokensFold(parts[..i], keyName)
    {
      FoldSnoc(parts, i, keyName);
      mods, key := ReadToken(mods, key, parts[i], keyName);
    }
    assert parts[..|parts|] == parts;
    modifiers := if mods == 0 then ModCtrl else mods;
  }

  /** One pass of the loop: a modifier ORs its bit in, a Keys name replaces the key. */
  method ReadToken(mods: bv32, key: nat, part: string, keyName: string -> Option<nat>) returns (mods': bv32, key': nat)
    ensures Hotkey(mods', key') == TokenStep(Hotkey(mods, key), part, keyName)
  {
    mods', key' := mods, key;
    var mod := ModifierOf(part);
    if mod.Some? {
      mods' := mods | mod.value;
    } else {
      var parsed := keyName(part);
      if parsed.Some? {
        key' := parsed.value;
      }
    }
  }

  lemma FoldSnoc(parts: seq<string>, i: nat, keyName: string -> Option<nat>)
    requires i < |parts|
    ensures TokensFold(parts[..i + 1], keyName) == TokenStep(TokensFold(parts[..i], keyName), parts[i], keyName)
  {
    assert parts[..i + 1][..i] == parts[..i];
  }

  /** Some token names this modifier. */
  predicate Names(parts: seq<string>, name: string) {
    exists i :: 0 <= i < |parts| && EqualsIgnoreCase(parts[i], name)
  }

  /** The modifier bits as a set: one bit for each of the four names that occurs. */
  function FlagMask(parts: seq<string>): bv32 {
    (if Names(parts, "CTRL") then ModCtrl else 0)
    | (if Names(parts, "ALT") then ModAlt else 0)
    | (if Names(parts, "SHIFT") then ModShift else 0)
    | (if Names(parts, "WIN") then ModWin else 0)
  }

  /** No string names two modifiers. */
  lemma ModifierNamesDiffer(part: string)
    ensures EqualsIgnoreCase(part, "CTRL") ==> !EqualsIgnoreCase(part, "ALT") && !EqualsIgnoreCase(part, "SHIFT") && !EqualsIgnoreCase(part, "WIN")
    ensures EqualsIgnoreCase(part, "ALT") ==> !EqualsIgnoreCase(part, "SHIFT") && !EqualsIgnoreCase(part, "WIN")
    ensures EqualsIgnoreCase(part, "SHIFT") ==> !EqualsIgnoreCase(part, "WIN")
  {
    if EqualsIgnoreCase(part, "CTRL") || EqualsIgnoreCase(part, "ALT") || EqualsIgnoreCase(part, "SHIFT") {
      assert Upper("CTRL") == "CTRL" && Upper("ALT") == "ALT" && Upper("SHIFT") == "SHIFT" && Upper("WIN") == "WIN";
    }
  }

  /** The loop's modifier bits are the bits of the modifier names that occur, whatever their
    * order and however often they occur. */
  lemma {:induction false} FoldMask(parts: seq<string>, keyName: string -> Option<nat>)
    ensures TokensFold(parts, keyName).modifiers == FlagMask(parts)
  {
    if parts != [] {
      var p := parts[..|parts| - 1];
      var last := parts[|parts| - 1];
      FoldMask(p, keyName);
      ModifierNamesDiffer(last);
      NamesSnoc(p, last, "CTRL");
      NamesSnoc(p, last, "ALT");
      NamesSnoc(p, last, "SHIFT");
      NamesSnoc(p, last, "WIN");
      assert parts == p + [last];
    }
  }

  lemma NamesSnoc(p: seq<string>, last: string, name: string)
    ensures Names(p + [last], name) <==> Names(p, name) || EqualsIgnoreCase(last, name)
  {
    if Names(p, name) {
      var i :| 0 <= i < |p| && EqualsIgnoreCase(p[i], name);
      assert (p + [last])[i] == p[i];
    }
    if EqualsIgnoreCase(last, name) {
      assert (p + [last])[|p|] == last;
    }
  }

  /** The mask holds no bit above the four modifier bits. */
  lemma FlagMaskBound(parts: seq<string>)
    ensures FlagMask(parts) <= 0xF
  {
    var c: bv32 := if Names(parts, "CTRL") then ModCtrl else 0;
    var a: bv32 := if Names(parts, "ALT") then ModAlt else 0;
    var sh: bv32 := if Names(parts, "SHIFT") then ModShift else 0;
    var w: bv32 := if Names(parts, "WIN") then ModWin else 0;
    assert FlagMask(parts) == c | a | sh | w;
    OrBound(c, a);
    OrBound(c | a, sh);
    OrBound(c | a | sh, w);
  }

  lemma OrBound(x: bv32, y: bv32)
    requires x <= 0xF && y <= 0xF
    ensures x | y <= 0xF
  {
  }

  /** The parsed modifiers are never 0 and never above 0xF: the bits of the modifier names
    * that occur, or CTRL alone when none does. */
  lemma ParseModifiers(hotkey: string, keyName: string -> Option<nat>)
    ensures var m := ParseHotkey(hotkey, keyName).modifiers;
      && m != 0 && m <= 0xF
      && (!IsBlank(hotkey) ==> m == if FlagMask(HotkeyTokens(hotkey)) == 0 then ModCtrl else FlagMask(HotkeyTokens(hotkey)))
  {
    if !IsBlank(hotkey) {
      FoldMask(HotkeyTokens(hotkey), keyName);
      FlagMaskBound(HotkeyTokens(hotkey));
    }
  }

  /** Two token lists that name the same modifiers, in any order and any number of times,
    * give the same modifier bits. */
  lemma MaskIgnoresOrder(a: seq<string>, b: seq<string>, keyName: string -> Option<nat>)
    requires forall x :: x in a <==> x in b
    ensures TokensFold(a, keyName).modifiers == TokensFold(b, keyName).modifiers
  {
    FoldMask(a, keyName);
    FoldMask(b, keyName);
    FlagMaskSame(a, b);
  }

  lemma FlagMaskSame(a: seq<string>, b: seq<string>)
    requires forall x :: x in a <==> x in b
    ensures FlagMask(a) == FlagMask(b)
  {
    NamesSame(a, b, "CTRL");
    NamesSame(a, b, "ALT");
    NamesSame(a, b, "SHIFT");
    NamesSame(a, b, "WIN");
  }

  lemma NamesSame(a: seq<string>, b: seq<string>, name: string)
    requires forall x :: x in a <==> x in b
    ensures Names(a, name) <==> Names(b, name)
  {
    if Names(a, name) {
      var i :| 0 <= i < |a| && EqualsIgnoreCase(a[i], name);
      assert a[i] in b;
      var j :| 0 <= j < |b| && b[j] == a[i];
    }
    if Names(b, name) {
      var i :| 0 <= i < |b| && EqualsIgnoreCase(b[i], name);
      assert b[i] in a;
      var j :| 0 <= j < |a| && a[j] == b[i];
    }
  }

  /** A token that sets the key: not a modifier, and a Keys name. */
  predicate SetsKey(part: string, keyName: string -> Option<nat>) {
    ModifierOf(part).None? && keyName(part).Some?
  }

  /** The index of the last token that sets the key. */
  function LastKeyToken(parts: seq<string>, keyName: string -> Option<nat>): (r: Option<nat>)
    ensures r.Some? ==> r.value < |parts| && SetsKey(parts[r.value], keyName)
    ensures r.Some? ==> forall j :: r.value < j < |parts| ==> !SetsKey(parts[j], keyName)
    ensures r.None? ==> forall j :: 0 <= j < |parts| ==> !SetsKey(parts[j], keyName)
  {
    if parts == [] then None
    else if SetsKey(parts[|parts| - 1], keyName) then Some(|parts| - 1)
    else LastKeyToken(parts[..|parts| - 1], keyName)
  }

  /** The parsed key is the key of the last token that sets one, or Keys.Q when none does. */
  lemma {:induction false} FoldKey(parts: seq<string>, keyName: string -> Option<nat>)
    ensures TokensFold(parts, keyName).key ==
      match LastKeyToken(parts, keyName)
      case None => KeyQ
      case Some(i) => keyName(parts[i]).value
  {
    if parts != [] {
      var p := parts[..|parts| - 1];
      FoldKey(p, keyName);
      if !SetsKey(parts[|parts| - 1], keyName) {
        match LastKeyToken(p, keyName)
        case None =>
        case Some(i) => assert parts[i] == p[i];
      }
    }
  }

  /** A blank hotkey text is Ctrl+Q. */
  lemma ParseBlank(hotkey: string, keyName: string -> Option<nat>)
    requires IsBlank(hotkey)
    ensures ParseHotkey(hotkey, keyName) == Hotkey(ModCtrl, KeyQ)
  {
  }

  // ---------------------------------------------------------------------------
  // The capture overlay
  // ---------------------------------------------------------------------------

  datatype Point = Point(X: int, Y: int)

  /** System.Drawing.Rectangle */
  datatype Rect = Rect(X: int, Y: int, Width: int, Height: int)

  function Min(a: int, b: int): int { if a <= b then a else b }
  function Abs(a: int): int { if a < 0 then -a else a }

  /** CaptureForm.GetRect(p1, p2) */
  function GetRect(p1: Point, p2: Point): Rect {
    Rect(Min(p1.X, p2.X), Min(p1.Y, p2.Y), Abs(p1.X - p2.X), Abs(p1.Y - p2.Y))
  }

  /** The rectangle spanned by two points has them at opposite corners: its width and height
    * are not negative, its top-left corner is the component-wise minimum and its
    * bottom-right the maximum, whichever point comes first. */
  lemma GetRectShape(p1: Point, p2: Point)
    ensures var r := GetRect(p1, p2);
      && r.Width >= 0 && r.Height >= 0
      && r.X <= p1.X && r.X <= p2.X && (r.X == p1.X || r.X == p2.X)
      && r.Y <= p1.Y && r.Y <= p2.Y && (r.Y == p1.Y || r.Y == p2.Y)
      && (r.X + r.Width == p1.X || r.X + r.Width == p2.X)
      && p1.X <= r.X + r.Width && p2.X <= r.X + r.Width
      && (r.Y + r.Height == p1.Y || r.Y + r.Height == p2.Y)
      && p1.Y <= r.Y + r.Height && p2.Y <= r.Y + r.Height
      && r == GetRect(p2, p1)
  {
  }

  /** The selection overlay: a drag from the mouse-down point selects a rectangle, and a
    * release captures it when both sides exceed 2 pixels. The captured bitmap is
    * represented by the rectangle it was copied from. */
  class CaptureForm {
    var selecting: bool
    var startPoint: Point
    var selection: Rect
    var capturedImage: Option<Rect>
    var closed: bool

    /** A captured image always comes from a selection of more than 2 by 2 pixels. */
    predicate Valid()
      reads this
    {
      capturedImage.Some? ==> capturedImage.value.Width > 2 && capturedImage.value.Height > 2
    }

    constructor()
      ensures Valid() && !selecting && !closed && capturedImage.None?
      ensures startPoint == Point(0, 0) && selection == Rect(0, 0, 0, 0)
    {
      selecting := false;
      startPoint := Point(0, 0);
      selection := Rect(0, 0, 0, 0);
      capturedImage := None;
      closed := false;
    }

    method KeyDown(isEscape: bool)
      modifies this
      ensures closed == (old(closed) || isEscape)
      ensures selecting == old(selecting) && startPoint == old(startPoint)
      ensures selection == old(selection) && capturedImage == old(capturedImage)
    {
      if isEscape {
        closed := true;
      }
    }

    method MouseDown(location: Point)
      modifies this
      ensures selecting && startPoint == location && selection == Rect(location.X, location.Y, 0, 0)
      ensures capturedImage == old(capturedImage) && closed == old(closed)
    {
      selecting := true;
      startPoint := location;
      selection := Rect(location.X, location.Y, 0, 0);
    }

    method MouseMove(location: Point)
      modifies this
      ensures selection == if old(selecting) then GetRect(startPoint, location) else old(selection)
      ensures selecting == old(selecting) && startPoint == old(startPoint)
      ensures capturedImage == old(capturedImage) && closed == old(closed)
    {
      if selecting {
        selection := GetRect(startPoint, location);
      }
    }

    /** MouseUp: the selection ends, is captured only when wider and taller than 2 pixels,
      * and the overlay closes either way. */
    method MouseUp(location: Point)
      requires Valid()
      modifies this
      ensures Valid() && !selecting && closed
      ensures selection == GetRect(old(startPoint), location) && startPoint == old(startPoint)
      ensures capturedImage == if selection.Width > 2 && selection.Height > 2 then Some(selection) else old(capturedImage)
    {
      selecting := false;
      selection := GetRect(startPoint, location);
      if selection.Width > 2 && selection.Height > 2 {
        capturedImage := Some(selection);
      }
      closed := true;
    }
  }

  // ---------------------------------------------------------------------------
  // CaptureSettings and the fixed region
  // ---------------------------------------------------------------------------

  /** The stored capture settings. Colours, the opacity and the line width are kept as read;
    * no drawing is modelled. */
  datatype CaptureSettings = CaptureSettings(
    OverlayOpacity: real,
    OverlayColorHex: string,
    SelectionLineColorHex: string,
    SelectionLineWidth: real,
    OutputDirectory: Option<string>,
    FileNameFormat: string,
    PixelFormatName: string,
    ShowSavedDialog: bool,
    Hotkey: string,
    FixedRegionHotkey: string,
    FixedRegionConfirmHotkey: string,
    FixedRegionX: int,
    FixedRegionY: int,
    FixedRegionWidth: int,
    FixedRegionHeight: int)

  /** CaptureSettings.GetFixedRegionRect */
  function FixedRegionRect(s: CaptureSettings): Rect {
    Rect(s.FixedRegionX, s.FixedRegionY, s.FixedRegionWidth, s.FixedRegionHeight)
  }

  /** CaptureAppContext.CloneSettingsWithRegion(rect) */
  function CloneSettingsWithRegion(s: CaptureSettings, rect: Rect): CaptureSettings {
    CaptureSettings(
      OverlayOpacity := s.OverlayOpacity,
      OverlayColorHex := s.OverlayColorHex,
      SelectionLineColorHex := s.SelectionLineColorHex,
      SelectionLineWidth := s.SelectionLineWidth,
      OutputDirectory := s.OutputDirectory,
      FileNameFormat := s.FileNameFormat,
      PixelFormatName := s.PixelFormatName,
      ShowSavedDialog := s.ShowSavedDialog,
      Hotkey := s.Hotkey,
      FixedRegionHotkey := s.FixedRegionHotkey,
      FixedRegionConfirmHotkey := s.FixedRegionConfirmHotkey,
      FixedRegionX := rect.X,
      FixedRegionY := rect.Y,
      FixedRegionWidth := rect.Width,
      FixedRegionHeight := rect.Height)
  }

  /** The copy differs from the settings only in the fixed region, which is the rectangle:
    * reading the region back gives the rectangle, and copying a settings' own region
    * gives the settings back. */
  lemma CloneSettingsShape(s: CaptureSettings, rect: Rect)
    ensures var c := CloneSettingsWithRegion(s, rect);
      && FixedRegionRect(c) == rect
      && c.(FixedRegionX := s.FixedRegionX, FixedRegionY := s.FixedRegionY,
            FixedRegionWidth := s.FixedRegionWidth, FixedRegionHeight := s.FixedRegionHeight) == s
      && CloneSettingsWithRegion(s, FixedRegionRect(s)) == s
  {
  }

  // ---------------------------------------------------------------------------
  // CaptureAppContext: the three capture commands and their guard
  // ---------------------------------------------------------------------------

  datatype DialogResult = OK | Retry | Cancel

  /** The hotkeys and tray entries that start a command. */
  datatype Command = CaptureCommand | FixedCaptureCommand | ConfigureCommand

  /** One pass of the TriggerCapture loop as the user plays it: the image the overlay
    * captured (None when the selection was cancelled), the commands pressed while the
    * preview is open, and how the preview was closed. */
  datatype Round = Round(captured: Option<Rect>, pressed: seq<Command>, result: DialogResult)

  /** The images the TriggerCapture loop saves: it repeats while the preview says Retry,
    * stops on a cancelled selection, and saves on OK. */
  function CaptureSaves(rounds: seq<Round>): seq<Rect> {
    if rounds == [] || rounds[0].captured.None? then []
    else if rounds[0].result == Retry then CaptureSaves(rounds[1..])
    else if rounds[0].result == OK then [rounds[0].captured.value]
    else []
  }

  /** The loop saves at most one image: the one of the first round that does not ask for a
    * retry, when that round captured an image and its preview said OK, every round before it
    * having captured an image and asked for a retry. */
  lemma {:induction false} CaptureSavesShape(rounds: seq<Round>)
    ensures |CaptureSaves(rounds)| <= 1
    ensures CaptureSaves(rounds) != [] ==>
      exists i :: 0 <= i < |rounds| && rounds[i].captured.Some? && rounds[i].result == OK
        && CaptureSaves(rounds) == [rounds[i].captured.value]
        && forall j :: 0 <= j < i ==> rounds[j].captured.Some? && rounds[j].result == Retry
  {
    if rounds != [] && rounds[0].captured.Some? && rounds[0].result == Retry {
      CaptureSavesShape(rounds[1..]);
      if CaptureSaves(rounds) != [] {
        var i :| 0 <= i < |rounds[1..]| && rounds[1..][i].captured.Some? && rounds[1..][i].result == OK
          && CaptureSaves(rounds[1..]) == [rounds[1..][i].captured.value]
          && forall j :: 0 <= j < i ==> rounds[1..][j].captured.Some? && rounds[1..][j].result == Retry;
        assert forall j :: 0 < j < i + 1 ==> rounds[j] == rounds[1..][j - 1];
        assert rounds[i + 1] == rounds[1..][i];
      }
    } else if CaptureSaves(rounds) != [] {
      assert rounds[0].result == OK;
    }
  }

  /** The tray application: its settings, the _isCapturing flag, the images it handed to
    * SaveCapturedImage, the settings it wrote and whether it asked for a restart. */
  class CaptureAppContext {
    const settings: CaptureSettings
    var isCapturing: bool
    var saved: seq<Rect>
    var written: Option<CaptureSettings>
    var restarting: bool

    constructor(settings: CaptureSettings)
      ensures this.settings == settings && !isCapturing && saved == [] && written == None && !restarting
    {
      this.settings := settings;
      isCapturing := false;
      saved := [];
      written := None;
      restarting := false;
    }

    /** TriggerCapture: nothing while a command runs; otherwise the capture loop runs with
      * the flag set, and the flag is cleared on the way out. */
    method TriggerCapture(rounds: seq<Round>)
      modifies this
      decreases |rounds|, 1
      ensures old(isCapturing) ==> isCapturing && saved == old(saved)
      ensures !old(isCapturing) ==> !isCapturing && saved == old(saved) + CaptureSaves(rounds)
      ensures written == old(written) && restarting == old(restarting)
    {
      if isCapturing {
        return;
      }
      isCapturing := true;
      var i := 0;
      while i < |rounds|
        invariant 0 <= i <= |rounds| && isCapturing
        invariant old(saved) + CaptureSaves(rounds) == saved + CaptureSaves(rounds[i..])
        invariant written == old(written) && restarting == old(restarting)
        decreases |rounds| - i
      {
        var round := rounds[i];
        if round.captured.None? {
          break;
        }
        Press(round.pressed);
        if round.result == Retry {
          assert rounds[i..][1..] == rounds[i + 1..];
          i := i + 1;
          continue;
        }
        if round.result == OK {
          saved := saved + [round.captured.value];
        }
        break;
      }
      isCapturing := false;
    }

    /** Commands pressed while a dialog of a running command is open. */
    method Press(commands: seq<Command>)
      modifies this
      decreases 1, 0
      ensures old(isCapturing) ==> isCapturing && saved == old(saved)
      ensures old(isCapturing) ==> written == old(written) && restarting == old(restarting)
    {
      for k := 0 to |commands|
        invariant old(isCapturing) ==> isCapturing && saved == old(saved)
        invariant old(isCapturing) ==> written == old(written) && restarting == old(restarting)
      {
        match commands[k]
        case CaptureCommand => TriggerCapture([]);
        case FixedCaptureCommand => TriggerFixedCapture(false, Cancel);
        case ConfigureCommand => ConfigureFixedRegionAndRestart(None);
      }
    }

    /** TriggerFixedCapture(showPreview): nothing while a command runs; a fixed region
      * without area is refused; otherwise its image is saved, after the preview's OK when
      * there is a preview. The flag is cleared on every way out. */
    method TriggerFixedCapture(showPreview: bool, preview: DialogResult)
      modifies this
      ensures old(isCapturing) ==> isCapturing && saved == old(saved)
      ensures !old(isCapturing) ==> !isCapturing
      ensures !old(isCapturing) ==>
        var rect := FixedRegionRect(settings);
        saved == old(saved) + (if rect.Width <= 0 || rect.Height <= 0 || (showPreview && preview != OK) then [] else [rect])
      ensures written == old(written) && restarting == old(restarting)
    {
      if isCapturing {
        return;
      }
      isCapturing := true;
      var rect := FixedRegionRect(settings);
      if rect.Width <= 0 || rect.Height <= 0 {
        isCapturing := false;
        return;
      }
      if showPreview {
        if preview == OK {
          saved := saved + [rect];
        }
      } else {
        saved := saved + [rect];
      }
      isCapturing := false;
    }

    /** ConfigureFixedRegionAndRestart: nothing while a command runs; a cancelled selection
      * or one without area changes nothing; otherwise the settings are written with the
      * selection as the fixed region and a restart is asked for. The flag is cleared on
      * every way out. */
    method ConfigureFixedRegionAndRestart(selection: Option<Rect>)
      modifies this
      ensures old(isCapturing) ==> isCapturing && written == old(written) && restarting == old(restarting)
      ensures !old(isCapturing) ==> !isCapturing
      ensures !old(isCapturing) ==>
        if selection.None? || selection.value.Width <= 0 || selection.value.Height <= 0
        then written == old(written) && restarting == old(restarting)
        else written == Some(CloneSettingsWithRegion(settings, selection.value)) && restarting
      ensures saved == old(saved)
    {
      if isCapturing {
        return;
      }
      isCapturing := true;
      if selection.None? {
        isCapturing := false;
        return;
      }
      var rect := selection.value;
      if rect.Width <= 0 || rect.Height <= 0 {
        isCapturing := false;
        return;
      }
      written := Some(CloneSettingsWithRegion(settings, rect));
      restarting := true;
      isCapturing := false;
    }
  }
}
