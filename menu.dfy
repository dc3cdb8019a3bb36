/**
  The main and settings menus (menu.rs): buttons that take a click under the
  mouse, two volume sliders, the display settings, and the five-second
  confirmation that follows a change of resolution.

  Hover highlighting is presentation and left out; the version string is
  fixed when the program is built.
 */
module Menus {
  import opened Geometry
  import Wrappers
  import Text

  datatype MenuState = Main | Settings

  datatype Button = Button(rect: Rect, caption: string)

  /** `Button::new`. */
  function NewButton(x: int, y: int, w: nat, h: nat, caption: string): (b: Button)
    ensures b.rect == NewRect(x, y, w, h) && b.caption == caption
  {
    Button(NewRect(x, y, w, h), caption)
  }

  /** `Button::is_clicked`: the point lies on the button. */
  predicate IsClicked(b: Button, mx: int, my: int)
    ensures IsClicked(b, mx, my) ==> !b.rect.IsEmpty() && b.rect.x <= mx && b.rect.y <= my
  {
    ContainsPoint(b.rect, mx, my)
  }

  /** A button of positive size takes a click on its top-left pixel and on
      its bottom-right pixel, but not one pixel past its right or bottom
      edge. */
  lemma ButtonCorners(x: int, y: int, w: nat, h: nat, caption: string)
    requires w > 0 && h > 0
    ensures var b := NewButton(x, y, w, h, caption);
      && IsClicked(b, x, y) && IsClicked(b, x + w - 1, y + h - 1)
      && !IsClicked(b, x + w, y) && !IsClicked(b, x, y + h)
  {
  }

  // ------------------------------------------------------------ sliders

  const MaxVolume: int := 128

  /** `i32::clamp`. */
  function Clamp(v: int, lo: int, hi: int): (r: int)
    requires lo <= hi
    ensures lo <= r <= hi
    ensures lo <= v <= hi ==> r == v
    ensures v < lo ==> r == lo
    ensures v > hi ==> r == hi
  {
    if v < lo then lo else if v > hi then hi else v
  }

  /** The volume under the mouse: the offset into the slider, clamped to
      its width, scaled to 0..128. */
  function SliderValue(r: Rect, mx: int): (v: int)
    requires r.w > 0
    ensures 0 <= v <= MaxVolume
    ensures mx <= r.x ==> v == 0
    ensures mx >= r.Right() ==> v == MaxVolume
  {
    var relative := Min(Max(mx - r.x, 0), r.w);
    ScaleBounds(relative, r.w);
    relative * MaxVolume / r.w
  }

  /** Scaling an offset within a width of `w` to 0..128. */
  lemma ScaleBounds(rel: nat, w: nat)
    requires 0 < w && rel <= w
    ensures 0 <= rel * MaxVolume / w <= MaxVolume
    ensures rel == 0 ==> rel * MaxVolume / w == 0
    ensures rel == w ==> rel * MaxVolume / w == MaxVolume
  {
    DivMonotone(rel * MaxVolume, w * MaxVolume, w);
    MulDiv(MaxVolume, w);
  }

  lemma MulDiv(q: nat, d: nat)
    requires d > 0
    ensures d * q / d == q
  {
    var n := d * q;
    DivMod(n, d);
    var e := q - n / d;
    assert d * e == n % d by {
      MulSub(d, q, n / d);
    }
    if e > 0 {
      MulLe(d, 1, e);
    } else if e < 0 {
      MulLe(d, e, -1);
    }
  }

  lemma DivMod(n: int, d: int)
    requires d > 0
    ensures n == d * (n / d) + n % d && 0 <= n % d < d
  {
  }

  lemma MulSub(d: int, x: int, y: int)
    ensures d * (x - y) == d * x - d * y
  {
  }

  lemma {:induction false} MulLe(d: nat, x: int, y: int)
    requires x <= y
    ensures d * x <= d * y
    decreases d
  {
    if d > 0 {
      MulLe(d - 1, x, y);
      assert d * x == (d - 1) * x + x;
      assert d * y == (d - 1) * y + y;
    }
  }

  /** Dragging further right never lowers the volume. */
  lemma SliderMonotone(r: Rect, mx1: int, mx2: int)
    requires r.w > 0 && mx1 <= mx2
    ensures SliderValue(r, mx1) <= SliderValue(r, mx2)
  {
    var a := Min(Max(mx1 - r.x, 0), r.w);
    var b := Min(Max(mx2 - r.x, 0), r.w);
    DivMonotone(a * MaxVolume, b * MaxVolume, r.w);
  }

  lemma DivMonotone(a: nat, b: nat, d: nat)
    requires a <= b && d > 0
    ensures a / d <= b / d
  {
    var qa, qb := a / d, b / d;
    DivMod(a, d);
    DivMod(b, d);
    if qa > qb {
      MulLe(d, qb + 1, qa);
    }
  }

  /** `VolumeSlider::update` on values: the new volume and dragging flag. */
  function SliderStep(r: Rect, value: int, dragging: bool, mx: int, my: int, mouseDown: bool): (s: (int, bool))
    requires r.w > 0
    ensures s.1 <==> mouseDown && (dragging || ContainsPoint(r, mx, my))
    ensures !s.1 ==> s.0 == value
    ensures s.1 ==> s.0 == SliderValue(r, mx)
  {
    var d := if mouseDown && ContainsPoint(r, mx, my) then true else dragging;
    var d' := if !mouseDown then false else d;
    if d' then (SliderValue(r, mx), d') else (value, d')
  }

  class VolumeSlider {
    var rect: Rect
    var value: int
    var dragging: bool

    ghost predicate Valid()
      reads this
    {
      rect.w > 0
    }

    /** `VolumeSlider::new`: 20 pixels high, at half volume. */
    constructor (x: int, y: int, width: nat)
      ensures Valid() && rect == NewRect(x, y, width, 20) && value == 64 && !dragging
    {
      rect := NewRect(x, y, width, 20);
      value := 64;
      dragging := false;
    }

    /** `VolumeSlider::update`. */
    method Update(mx: int, my: int, mouseDown: bool)
      requires Valid()
      modifies this
      ensures Valid() && rect == old(rect)
      ensures (value, dragging) == SliderStep(rect, old(value), old(dragging), mx, my, mouseDown)
    {
      if mouseDown && ContainsPoint(rect, mx, my) {
        dragging := true;
      }
      if !mouseDown {
        dragging := false;
      }
      if dragging {
        var relativeX := Min(Max(mx - rect.x, 0), rect.w);
        value := relativeX * MaxVolume / rect.w;
      }
    }

    /** `VolumeSlider::set_value`. */
    method SetValue(v: int)
      modifies this`value
      ensures value == Clamp(v, 0, MaxVolume)
    {
      value := Clamp(v, 0, MaxVolume);
    }
  }

  /** Once a slider's volume is in range, it stays in range whatever the
      mouse does. */
  lemma SliderStaysInRange(r: Rect, value: int, dragging: bool, mx: int, my: int, mouseDown: bool)
    requires r.w > 0 && 0 <= value <= MaxVolume
    ensures 0 <= SliderStep(r, value, dragging, mx, my, mouseDown).0 <= MaxVolume
  {
  }

  // ------------------------------------------------------------ resolutions

  /** The preset resolutions. */
  const Presets: seq<(nat, nat)> := [(1280, 720), (1366, 768), (1600, 900), (1920, 1080), (2560, 1440)]

  /** `format!("{}x{}", w, h)`. */
  function ResolutionLabel(w: nat, h: nat): (s: string)
    ensures s == Text.NatToString(w) + "x" + Text.NatToString(h)
    ensures 'x' in s
  {
    var s := Text.NatToString(w) + "x" + Text.NatToString(h);
    assert s[|Text.NatToString(w)|] == 'x';
    s
  }

  /** The first index holding `res`, if any. */
  function IndexOf(rs: seq<(nat, nat)>, res: (nat, nat)): (k: Wrappers.Option<nat>)
    ensures k.Some? ==> k.value < |rs| && rs[k.value] == res && forall j :: 0 <= j < k.value ==> rs[j] != res
    ensures k.None? <==> res !in rs
    decreases |rs|
  {
    if rs == [] then Wrappers.None
    else if rs[0] == res then Wrappers.Some(0)
    else match IndexOf(rs[1..], res)
      case None => Wrappers.None
      case Some(k) => Wrappers.Some(k + 1)
  }

  /** The presets are distinct, so choosing one selects exactly it. */
  lemma PresetSelectsItself(i: nat)
    requires i < |Presets|
    ensures IndexOf(Presets, Presets[i]) == Wrappers.Some(i)
  {
    IndexOfFirst(Presets, Presets[i], i);
  }

  /** One call of `update_resolution_timer`: the new timer and whether it
      expired. */
  function TimerTick(t: Wrappers.Option<nat>): (s: (Wrappers.Option<nat>, bool))
    ensures t.None? ==> s == (t, false)
    ensures t.Some? && t.value > 0 ==> s.0.Some? && s.0.value == t.value - 1 && !s.1
    ensures t == Wrappers.Some(0) ==> s == (t, true)
  {
    match t
    case None => (t, false)
    case Some(k) => if k > 0 then (Wrappers.Some(k - 1), false) else (t, true)
  }

  function TimerAfter(t: Wrappers.Option<nat>, n: nat): Wrappers.Option<nat>
    decreases n
  {
    if n == 0 then t else TimerAfter(TimerTick(t).0, n - 1)
  }

  lemma {:induction false} TimerCountsDown(k: nat, n: nat)
    requires n <= k
    ensures TimerAfter(Wrappers.Some(k), n) == Wrappers.Some(k - n as nat)
    decreases n
  {
    if n > 0 {
      TimerCountsDown(k - 1, n - 1);
    }
  }

  lemma {:induction false} TimerStaysExpired(n: nat)
    ensures TimerAfter(Wrappers.Some(0), n) == Wrappers.Some(0)
    decreases n
  {
    if n > 0 {
      TimerStaysExpired(n - 1);
    }
  }

  const ConfirmFrames: nat := 300

  /** After a resolution change the first 300 calls of the timer report
      nothing, and every call from the 301st on reports expiry, until the
      change is confirmed or cancelled. */
  lemma ConfirmationWindow(n: nat)
    ensures TimerTick(TimerAfter(Wrappers.Some(ConfirmFrames), n)).1 <==> n >= ConfirmFrames
  {
    if n <= ConfirmFrames {
      TimerCountsDown(ConfirmFrames, n);
    } else {
      TimerCountsDown(ConfirmFrames, ConfirmFrames);
      TimerAfterSplit(Wrappers.Some(ConfirmFrames), ConfirmFrames, n - ConfirmFrames);
      TimerStaysExpired(n - ConfirmFrames);
    }
  }

  lemma {:induction false} TimerAfterSplit(t: Wrappers.Option<nat>, a: nat, b: nat)
    ensures TimerAfter(t, a + b) == TimerAfter(TimerAfter(t, a), b)
    decreases a
  {
    if a > 0 {
      TimerAfterSplit(TimerTick(t).0, a - 1, b);
      assert a + b - 1 == (a - 1) + b;
    }
  }

  // ------------------------------------------------------------ the menu

  datatype MenuAction =
    | None
    | Resume
    | NewGame
    | Restart
    | Quit
    | OpenSettings
    | CloseSettings
    | ToggleMusic
    | ToggleSFX
    | ToggleFullscreen
    | ToggleVSync
    | ToggleGravity
    | EnterLevelEditor
    | OpenGithub
    | SelectResolution(index: nat)
    | ConfirmResolution
    | CancelResolution

  class Menu {
    var state: MenuState
    var resumeButton: Button
    var restartButton: Button
    var settingsButton: Button
    var levelEditorButton: Button
    var backButton: Button
    var quitButton: Button
    var musicToggleButton: Button
    var sfxToggleButton: Button
    var githubButton: Button
    var fullscreenButton: Button
    var vsyncButton: Button
    var gravityModeButton: Button
    var musicSlider: VolumeSlider
    var sfxSlider: VolumeSlider
    var resolutionLabel: string
    var resolutionButtons: seq<Button>
    var availableResolutions: seq<(nat, nat)>
    var selectedResolutionIndex: nat
    var pendingResolution: Wrappers.Option<(nat, nat)>
    var resolutionConfirmTimer: Wrappers.Option<nat>
    var confirmButton: Button
    var cancelButton: Button
    var musicMuted: bool
    var sfxMuted: bool
    var isFullscreen: bool
    var vsyncEnabled: bool
    var gravityMode: bool
    var gameStarted: bool

    /** Two separate sliders, the presets, and a selected index inside
        them. */
    ghost predicate Valid()
      reads this, musicSlider, sfxSlider
    {
      && musicSlider != sfxSlider && musicSlider.Valid() && sfxSlider.Valid()
      && availableResolutions == Presets && selectedResolutionIndex < |availableResolutions|
    }

    /** `Menu::new`: the main menu, a column of 200-wide buttons centred on
        the window, one button per preset resolution, nothing pending. */
    constructor (windowWidth: nat, windowHeight: nat)
      ensures Valid() && fresh(musicSlider) && fresh(sfxSlider)
      ensures state == Main && !gameStarted
      ensures var cx, cy := windowWidth / 2 - 100, windowHeight / 2;
        && resumeButton == NewButton(cx, cy - 125, 200, 40, "New Game")
        && restartButton == NewButton(cx, cy - 75, 200, 40, "Restart")
        && gravityModeButton == NewButton(cx, cy - 25, 200, 40, "Gravity Mode")
        && levelEditorButton == NewButton(cx, cy + 25, 200, 40, "Level Editor")
        && settingsButton == NewButton(cx, cy + 75, 200, 40, "Settings")
        && quitButton == NewButton(cx, cy + 125, 200, 40, "Quit")
        && musicToggleButton == NewButton(cx, cy - 140, 200, 40, "Music: ON")
        && sfxToggleButton == NewButton(cx, cy - 50, 200, 40, "SFX: ON")
        && fullscreenButton == NewButton(cx, cy + 40, 200, 40, "Windowed")
        && vsyncButton == NewButton(cx, cy + 90, 200, 40, "VSync: ON")
        && confirmButton == NewButton(cx - 60, cy + 350, 100, 35, "Keep")
        && cancelButton == NewButton(cx + 60, cy + 350, 100, 35, "Revert")
        && backButton == NewButton(cx, cy + 400, 200, 40, "Back")
        && githubButton == NewButton(windowWidth - 110, windowHeight - 50, 100, 40, "Github")
        && musicSlider.rect == NewRect(cx, cy - 90, 200, 20)
        && sfxSlider.rect == NewRect(cx, cy, 200, 20)
      ensures musicSlider.value == 64 && sfxSlider.value == 64 && !musicSlider.dragging && !sfxSlider.dragging
      ensures |resolutionButtons| == |Presets|
      ensures forall i :: 0 <= i < |Presets| ==>
                resolutionButtons[i] == NewButton(windowWidth / 2 - 100, windowHeight / 2 + 150 + i * 35, 200, 30,
                                                  ResolutionLabel(Presets[i].0, Presets[i].1))
      ensures resolutionLabel == ResolutionLabel(1280, 720) && selectedResolutionIndex == 0
      ensures pendingResolution == Wrappers.None && resolutionConfirmTimer == Wrappers.None
      ensures !musicMuted && !sfxMuted && !isFullscreen && vsyncEnabled && !gravityMode
    {
      var centerX := windowWidth / 2 - 100;
      var centerY := windowHeight / 2;
      state := Main;
      resumeButton := NewButton(centerX, centerY - 125, 200, 40, "New Game");
      restartButton := NewButton(centerX, centerY - 75, 200, 40, "Restart");
      gravityModeButton := NewButton(centerX, centerY - 25, 200, 40, "Gravity Mode");
      levelEditorButton := NewButton(centerX, centerY + 25, 200, 40, "Level Editor");
      settingsButton := NewButton(centerX, centerY + 75, 200, 40, "Settings");
      quitButton := NewButton(centerX, centerY + 125, 200, 40, "Quit");
      musicToggleButton := NewButton(centerX, centerY - 140, 200, 40, "Music: ON");
      musicSlider := new VolumeSlider(centerX, centerY - 90, 200);
      sfxToggleButton := NewButton(centerX, centerY - 50, 200, 40, "SFX: ON");
      sfxSlider := new VolumeSlider(centerX, centerY, 200);
      fullscreenButton := NewButton(centerX, centerY + 40, 200, 40, "Windowed");
      vsyncButton := NewButton(centerX, centerY + 90, 200, 40, "VSync: ON");
      var buttons := ResolutionButtons(centerX, centerY + 150);
      resolutionButtons := buttons;
      resolutionLabel := ResolutionLabel(1280, 720);
      availableResolutions := Presets;
      selectedResolutionIndex := 0;
      pendingResolution := Wrappers.None;
      resolutionConfirmTimer := Wrappers.None;
      confirmButton := NewButton(centerX - 60, centerY + 350, 100, 35, "Keep");
      cancelButton := NewButton(centerX + 60, centerY + 350, 100, 35, "Revert");
      backButton := NewButton(centerX, centerY + 400, 200, 40, "Back");
      githubButton := NewButton(windowWidth - 110, windowHeight - 50, 100, 40, "Github");
      musicMuted, sfxMuted, isFullscreen := false, false, false;
      vsyncEnabled, gravityMode, gameStarted := true, false, false;
    }

    /** The loop of `Menu::new` over the preset resolutions: one 200×30
        button per preset, 35 pixels apart, captioned with its label. */
    static method ResolutionButtons(x: int, top: int) returns (buttons: seq<Button>)
      ensures |buttons| == |Presets|
      ensures forall j :: 0 <= j < |Presets| ==>
                buttons[j] == NewButton(x, top + j * 35, 200, 30, ResolutionLabel(Presets[j].0, Presets[j].1))
    {
      buttons := [];
      var i := 0;
      while i < |Presets|
        invariant i <= |Presets| && |buttons| == i
        invariant forall j :: 0 <= j < i ==>
                    buttons[j] == NewButton(x, top + j * 35, 200, 30, ResolutionLabel(Presets[j].0, Presets[j].1))
      {
        var (w, h) := Presets[i];
        var caption := ResolutionLabel(w, h);
        ghost var before := buttons;
        buttons := buttons + [NewButton(x, top + i * 35, 200, 30, caption)];
        assert forall j :: 0 <= j < i ==> buttons[j] == before[j];
        i := i + 1;
      }
    }

    /** `update_slider`: the sliders follow the mouse only in the settings
        menu. */
    method UpdateSlider(mx: int, my: int, mouseDown: bool)
      requires Valid()
      modifies musicSlider, sfxSlider
      ensures Valid()
      ensures state == Settings ==>
                && (musicSlider.value, musicSlider.dragging) ==
                   SliderStep(musicSlider.rect, old(musicSlider.value), old(musicSlider.dragging), mx, my, mouseDown)
                && (sfxSlider.value, sfxSlider.dragging) ==
                   SliderStep(sfxSlider.rect, old(sfxSlider.value), old(sfxSlider.dragging), mx, my, mouseDown)
      ensures state != Settings ==> unchanged(musicSlider, sfxSlider)
      ensures musicSlider.rect == old(musicSlider.rect) && sfxSlider.rect == old(sfxSlider.rect)
    {
      if state == Settings {
        musicSlider.Update(mx, my, mouseDown);
        sfxSlider.Update(mx, my, mouseDown);
      }
    }

    /** `set_music_muted`. */
    method SetMusicMuted(muted: bool)
      modifies this`musicMuted, this`musicToggleButton
      ensures musicMuted == muted && musicToggleButton.rect == old(musicToggleButton.rect)
      ensures musicToggleButton.caption == if muted then "Music: OFF" else "Music: ON"
    {
      musicMuted := muted;
      musicToggleButton := musicToggleButton.(caption := if muted then "Music: OFF" else "Music: ON");
    }

    /** `set_sfx_muted`. */
    method SetSfxMuted(muted: bool)
      modifies this`sfxMuted, this`sfxToggleButton
      ensures sfxMuted == muted && sfxToggleButton.rect == old(sfxToggleButton.rect)
      ensures sfxToggleButton.caption == if muted then "SFX: OFF" else "SFX: ON"
    {
      sfxMuted := muted;
      sfxToggleButton := sfxToggleButton.(caption := if muted then "SFX: OFF" else "SFX: ON");
    }

    /** `set_fullscreen`. */
    method SetFullscreen(fullscreen: bool)
      modifies this`isFullscreen, this`fullscreenButton
      ensures isFullscreen == fullscreen && fullscreenButton.rect == old(fullscreenButton.rect)
      ensures fullscreenButton.caption == if fullscreen then "Fullscreen" else "Windowed"
    {
      isFullscreen := fullscreen;
      fullscreenButton := fullscreenButton.(caption := if fullscreen then "Fullscreen" else "Windowed");
    }

    /** `set_gravity_mode`: the caption stays "Gravity Mode". */
    method SetGravityMode(on: bool)
      modifies this`gravityMode
      ensures gravityMode == on
    {
      gravityMode := on;
    }

    /** `set_vsync`. */
    method SetVsync(enabled: bool)
      modifies this`vsyncEnabled, this`vsyncButton
      ensures vsyncEnabled == enabled && vsyncButton.rect == old(vsyncButton.rect)
      ensures vsyncButton.caption == if enabled then "VSync: ON" else "VSync: OFF"
    {
      vsyncEnabled := enabled;
      vsyncButton := vsyncButton.(caption := if enabled then "VSync: ON" else "VSync: OFF");
    }

    /** `set_game_started`: once a game runs, the first button resumes it. */
    method SetGameStarted(started: bool)
      modifies this`gameStarted, this`resumeButton
      ensures gameStarted == started && resumeButton.rect == old(resumeButton.rect)
      ensures resumeButton.caption == if started then "Resume" else "New Game"
    {
      gameStarted := started;
      resumeButton := resumeButton.(caption := if started then "Resume" else "New Game");
    }

    /** `set_resolution`: the caption shows any resolution; the selection
        moves only to a matching preset. */
    method SetResolution(width: nat, height: nat)
      requires Valid()
      modifies this`resolutionLabel, this`selectedResolutionIndex
      ensures resolutionLabel == ResolutionLabel(width, height)
      ensures selectedResolutionIndex ==
                match IndexOf(availableResolutions, (width, height))
                case Some(k) => k
                case None => old(selectedResolutionIndex)
      ensures Valid()
    {
      resolutionLabel := ResolutionLabel(width, height);
      var i := 0;
      while i < |availableResolutions|
        invariant i <= |availableResolutions|
        invariant forall j :: 0 <= j < i ==> availableResolutions[j] != (width, height)
        invariant selectedResolutionIndex == old(selectedResolutionIndex)
      {
        var (w, h) := availableResolutions[i];
        if w == width && h == height {
          selectedResolutionIndex := i;
          IndexOfFirst(availableResolutions, (width, height), i);
          return;
        }
        i := i + 1;
      }
    }

    /** `get_selected_resolution`: always one of the presets. */
    function SelectedResolution(): (r: (nat, nat))
      requires Valid()
      reads this, musicSlider, sfxSlider
      ensures r in Presets
    {
      availableResolutions[selectedResolutionIndex]
    }

    /** `start_resolution_confirmation`: remembers the resolution to go back
        to and gives the user 300 frames to keep the new one. */
    method StartResolutionConfirmation(previous: (nat, nat))
      modifies this`pendingResolution, this`resolutionConfirmTimer
      ensures pendingResolution == Wrappers.Some(previous)
      ensures resolutionConfirmTimer == Wrappers.Some(ConfirmFrames)
    {
      pendingResolution := Wrappers.Some(previous);
      resolutionConfirmTimer := Wrappers.Some(ConfirmFrames);
    }

    /** `update_resolution_timer`: true when the time to confirm is up. */
    method UpdateResolutionTimer() returns (expired: bool)
      modifies this`resolutionConfirmTimer
      ensures (resolutionConfirmTimer, expired) == TimerTick(old(resolutionConfirmTimer))
    {
      match resolutionConfirmTimer
      case None =>
        expired := false;
      case Some(t) =>
        if t > 0 {
          resolutionConfirmTimer := Wrappers.Some(t - 1);
          expired := false;
        } else {
          expired := true;
        }
    }

    /** `confirm_resolution`: keeps the new resolution. */
    method ConfirmResolution()
      modifies this`pendingResolution, this`resolutionConfirmTimer
      ensures pendingResolution == Wrappers.None && resolutionConfirmTimer == Wrappers.None
    {
      pendingResolution := Wrappers.None;
      resolutionConfirmTimer := Wrappers.None;
    }

    /** `cancel_resolution`: hands back the resolution to restore. */
    method CancelResolution() returns (previous: Wrappers.Option<(nat, nat)>)
      modifies this`pendingResolution, this`resolutionConfirmTimer
      ensures previous == old(pendingResolution)
      ensures pendingResolution == Wrappers.None && resolutionConfirmTimer == Wrappers.None
    {
      previous := pendingResolution;
      pendingResolution := Wrappers.None;
      resolutionConfirmTimer := Wrappers.None;
    }
  }

  lemma IndexOfFirst(rs: seq<(nat, nat)>, res: (nat, nat), i: nat)
    requires i < |rs| && rs[i] == res && forall j :: 0 <= j < i ==> rs[j] != res
    ensures IndexOf(rs, res) == Wrappers.Some(i)
  {
    assert IndexOf(rs, res).Some?;
  }

  /** The first of `buttons` under the point, if any. */
  function FirstClicked(buttons: seq<Button>, mx: int, my: int): (k: Wrappers.Option<nat>)
    ensures k.Some? ==> k.value < |buttons| && IsClicked(buttons[k.value], mx, my)
    ensures k.Some? ==> forall j :: 0 <= j < k.value ==> !IsClicked(buttons[j], mx, my)
    ensures k.None? ==> forall j :: 0 <= j < |buttons| ==> !IsClicked(buttons[j], mx, my)
    decreases |buttons|
  {
    if buttons == [] then Wrappers.None
    else if IsClicked(buttons[0], mx, my) then Wrappers.Some(0)
    else match FirstClicked(buttons[1..], mx, my)
      case None => Wrappers.None
      case Some(k) => Wrappers.Some(k + 1)
  }

  /** What a click means in the main menu: the buttons are tried top to
      bottom, then the link. */
  function MainClick(m: Menu, mx: int, my: int): MenuAction
    reads m
  {
    if IsClicked(m.resumeButton, mx, my) then (if m.gameStarted then Resume else NewGame)
    else if IsClicked(m.restartButton, mx, my) then Restart
    else if IsClicked(m.gravityModeButton, mx, my) then ToggleGravity
    else if IsClicked(m.levelEditorButton, mx, my) then EnterLevelEditor
    else if IsClicked(m.settingsButton, mx, my) then OpenSettings
    else if IsClicked(m.quitButton, mx, my) then Quit
    else if IsClicked(m.githubButton, mx, my) then OpenGithub
    else None
  }

  /** What a click means in the settings menu: while a resolution waits for
      confirmation only its two buttons respond. */
  function SettingsClick(m: Menu, mx: int, my: int): MenuAction
    reads m
  {
    if m.resolutionConfirmTimer.Some? then
      if IsClicked(m.confirmButton, mx, my) then ConfirmResolution
      else if IsClicked(m.cancelButton, mx, my) then CancelResolution
      else None
    else if IsClicked(m.musicToggleButton, mx, my) then ToggleMusic
    else if IsClicked(m.sfxToggleButton, mx, my) then ToggleSFX
    else if IsClicked(m.fullscreenButton, mx, my) then ToggleFullscreen
    else if IsClicked(m.vsyncButton, mx, my) then ToggleVSync
    else match FirstClicked(m.resolutionButtons, mx, my)
      case Some(i) => SelectResolution(i)
      case None => if IsClicked(m.backButton, mx, my) then CloseSettings else None
  }

  function ClickAction(m: Menu, mx: int, my: int): (a: MenuAction)
    reads m
    ensures m.state == Main ==>
              a.Resume? || a.NewGame? || a.Restart? || a.ToggleGravity? || a.EnterLevelEditor? ||
              a.OpenSettings? || a.Quit? || a.OpenGithub? || a.None?
    ensures m.state == Settings && m.resolutionConfirmTimer.Some? ==>
              a.ConfirmResolution? || a.CancelResolution? || a.None?
    ensures a.Resume? ==> m.gameStarted
    ensures a.NewGame? ==> !m.gameStarted
    ensures a.SelectResolution? ==> a.index < |m.resolutionButtons|
  {
    match m.state
    case Main => MainClick(m, mx, my)
    case Settings => SettingsClick(m, mx, my)
  }

  /** `handle_menu_click`. */
  method HandleMenuClick(menu: Menu, mx: int, my: int) returns (action: MenuAction)
    ensures action == ClickAction(menu, mx, my)
  {
    match menu.state {
      case Main =>
      if IsClicked(menu.resumeButton, mx, my) {
        return if menu.gameStarted then Resume else NewGame;
      }
      if IsClicked(menu.restartButton, mx, my) { return Restart; }
      if IsClicked(menu.gravityModeButton, mx, my) { return ToggleGravity; }
      if IsClicked(menu.levelEditorButton, mx, my) { return EnterLevelEditor; }
      if IsClicked(menu.settingsButton, mx, my) { return OpenSettings; }
      if IsClicked(menu.quitButton, mx, my) { return Quit; }
      if IsClicked(menu.githubButton, mx, my) { return OpenGithub; }
    case Settings =>
      if menu.resolutionConfirmTimer.Some? {
        if IsClicked(menu.confirmButton, mx, my) { return ConfirmResolution; }
        if IsClicked(menu.cancelButton, mx, my) { return CancelResolution; }
        return None;
      }
      if IsClicked(menu.musicToggleButton, mx, my) { return ToggleMusic; }
      if IsClicked(menu.sfxToggleButton, mx, my) { return ToggleSFX; }
      if IsClicked(menu.fullscreenButton, mx, my) { return ToggleFullscreen; }
      if IsClicked(menu.vsyncButton, mx, my) { return ToggleVSync; }
      var i := 0;
      while i < |menu.resolutionButtons|
        invariant i <= |menu.resolutionButtons|
        invariant forall j :: 0 <= j < i ==> !IsClicked(menu.resolutionButtons[j], mx, my)
      {
        if IsClicked(menu.resolutionButtons[i], mx, my) {
          FirstClickedIs(menu.resolutionButtons, mx, my, i);
          return SelectResolution(i);
        }
        i := i + 1;
      }
      if IsClicked(menu.backButton, mx, my) { return CloseSettings; }
    }
    return None;
  }

  lemma FirstClickedIs(buttons: seq<Button>, mx: int, my: int, i: nat)
    requires i < |buttons| && IsClicked(buttons[i], mx, my)
    requires forall j :: 0 <= j < i ==> !IsClicked(buttons[j], mx, my)
    ensures FirstClicked(buttons, mx, my) == Wrappers.Some(i)
  {
    assert FirstClicked(buttons, mx, my).Some?;
  }

  /** While a new resolution waits for confirmation, a click in the
      settings menu can only keep it, revert it, or do nothing. */
  lemma ConfirmationBlocksSettings(m: Menu, mx: int, my: int)
    requires m.state == Settings && m.resolutionConfirmTimer.Some?
    ensures ClickAction(m, mx, my) in {None, ConfirmResolution, CancelResolution}
    ensures ClickAction(m, mx, my) == ConfirmResolution <==> IsClicked(m.confirmButton, mx, my)
  {
  }

  /** In the main menu the first button starts a new game or resumes the
      running one, ahead of every other button. */
  lemma ResumeOrNewGame(m: Menu, mx: int, my: int)
    requires m.state == Main && IsClicked(m.resumeButton, mx, my)
    ensures ClickAction(m, mx, my) == Resume <==> m.gameStarted
    ensures ClickAction(m, mx, my) == NewGame <==> !m.gameStarted
  {
  }

  /** A click selects a resolution only in the settings menu with nothing
      to confirm, on the first preset button under the mouse, and when no
      toggle above the list is under it. */
  lemma SelectionIsFirstHit(m: Menu, mx: int, my: int, i: nat)
    requires ClickAction(m, mx, my) == SelectResolution(i)
    ensures m.state == Settings && m.resolutionConfirmTimer.None?
    ensures i < |m.resolutionButtons| && IsClicked(m.resolutionButtons[i], mx, my)
    ensures forall j :: 0 <= j < i ==> !IsClicked(m.resolutionButtons[j], mx, my)
    ensures !IsClicked(m.musicToggleButton, mx, my) && !IsClicked(m.sfxToggleButton, mx, my)
    ensures !IsClicked(m.fullscreenButton, mx, my) && !IsClicked(m.vsyncButton, mx, my)
  {
    assert m.state == Settings;
    match FirstClicked(m.resolutionButtons, mx, my)
    case Some(k) =>
    case None =>
  }

  /** A click that does something lies on some button of the current menu. */
  lemma ActionNeedsButton(m: Menu, mx: int, my: int)
    requires ClickAction(m, mx, my) != None
    ensures m.state == Main ==>
              || IsClicked(m.resumeButton, mx, my) || IsClicked(m.restartButton, mx, my)
              || IsClicked(m.gravityModeButton, mx, my) || IsClicked(m.levelEditorButton, mx, my)
              || IsClicked(m.settingsButton, mx, my) || IsClicked(m.quitButton, mx, my)
              || IsClicked(m.githubButton, mx, my)
    ensures m.state == Settings ==>
              || IsClicked(m.confirmButton, mx, my) || IsClicked(m.cancelButton, mx, my)
              || IsClicked(m.musicToggleButton, mx, my) || IsClicked(m.sfxToggleButton, mx, my)
              || IsClicked(m.fullscreenButton, mx, my) || IsClicked(m.vsyncButton, mx, my)
              || IsClicked(m.backButton, mx, my)
              || exists j :: 0 <= j < |m.resolutionButtons| && IsClicked(m.resolutionButtons[j], mx, my)
  {
    if m.state == Settings && m.resolutionConfirmTimer.None? {
      match FirstClicked(m.resolutionButtons, mx, my)
      case Some(k) =>
        assert IsClicked(m.resolutionButtons[k], mx, my);
      case None =>
    }
  }
}
