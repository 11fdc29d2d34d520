/**
 The table of binds: the names of its rows, and why no two texts that are saved for binds share a name in a file.
 */
module BindTable {
  import opened Decimal
  import opened Keybind
  import RemapKeys

  const ROWS: nat := 91
  /** From this row on the binds belong to the first user alone. */
  const FIRST_META: nat := 36

  /** Buttons and sticks. */
  function PadName(k: nat): string {
    match k
    case 0 => "b" case 1 => "y" case 2 => "select" case 3 => "start" case 4 => "up" case 5 => "down" case 6 => "left"
    case 7 => "right" case 8 => "a" case 9 => "x" case 10 => "l" case 11 => "r" case 12 => "l2" case 13 => "r2"
    case 14 => "l3" case 15 => "r3" case 16 => "l_x_plus" case 17 => "l_x_minus" case 18 => "l_y_plus"
    case 19 => "l_y_minus" case 20 => "r_x_plus" case 21 => "r_x_minus" case 22 => "r_y_plus" case _ => "r_y_minus"
  }

  /** The light gun, and turbo. */
  function GunName(k: nat): string {
    match k
    case 0 => "gun_trigger" case 1 => "gun_offscreen_shot" case 2 => "gun_aux_a" case 3 => "gun_aux_b"
    case 4 => "gun_aux_c" case 5 => "gun_start" case 6 => "gun_select" case 7 => "gun_dpad_up"
    case 8 => "gun_dpad_down" case 9 => "gun_dpad_left" case 10 => "gun_dpad_right" case _ => "turbo"
  }

  /** Hotkeys, up to the disks. */
  function HotkeyName(k: nat): string {
    match k
    case 0 => "enable_hotkey" case 1 => "menu_toggle" case 2 => "exit_emulator" case 3 => "close_content"
    case 4 => "reset" case 5 => "toggle_fast_forward" case 6 => "hold_fast_forward" case 7 => "toggle_slowmotion"
    case 8 => "hold_slowmotion" case 9 => "rewind" case 10 => "pause_toggle" case 11 => "frame_advance"
    case 12 => "audio_mute" case 13 => "volume_up" case 14 => "volume_down" case 15 => "load_state"
    case 16 => "save_state" case 17 => "state_slot_increase" case 18 => "state_slot_decrease" case 19 => "play_replay"
    case 20 => "record_replay" case 21 => "halt_replay" case 22 => "replay_slot_increase"
    case 23 => "replay_slot_decrease" case 24 => "disk_eject_toggle" case 25 => "disk_next" case _ => "disk_prev"
  }

  /** Hotkeys, from the shaders on. */
  function LateHotkeyName(k: nat): string {
    match k
    case 0 => "shader_toggle" case 1 => "shader_hold" case 2 => "shader_next" case 3 => "shader_prev"
    case 4 => "cheat_toggle" case 5 => "cheat_index_plus" case 6 => "cheat_index_minus" case 7 => "screenshot"
    case 8 => "recording_toggle" case 9 => "streaming_toggle" case 10 => "turbo_fire_toggle"
    case 11 => "grab_mouse_toggle" case 12 => "game_focus_toggle" case 13 => "toggle_fullscreen"
    case 14 => "desktop_menu_toggle" case 15 => "toggle_vrr_runloop" case 16 => "runahead_toggle"
    case 17 => "preempt_toggle" case 18 => "fps_toggle" case 19 => "toggle_statistics" case 20 => "ai_service"
    case 21 => "netplay_ping_toggle" case 22 => "netplay_host_toggle" case 23 => "netplay_game_watch"
    case 24 => "netplay_player_chat" case 25 => "netplay_fade_chat_toggle" case 26 => "overlay_next"
    case _ => "osk_toggle"
  }

  /** The base name of a row. */
  function Base(row: nat): string
    requires row < ROWS
  {
    if row < 24 then PadName(row)
    else if row < FIRST_META then GunName(row - 24)
    else if row < 63 then HotkeyName(row - FIRST_META)
    else LateHotkeyName(row - 63)
  }

  /** The row a base name belongs to, read off its length and some of its characters. */
  function RowOf(s: string): (row: nat) {
    match |s|
    case 1 =>
      if s[0] == 'b' then 0 else if s[0] == 'y' then 1 else if s[0] == 'a' then 8 else if s[0] == 'x' then 9 else
      if s[0] == 'l' then 10 else 11
    case 2 =>
      if s[0] == 'u' then 4 else if s[0] == 'l' then (if s[1] == '2' then 12 else 14) else
      if s[1] == '2' then 13 else 15
    case 4 => if s[0] == 'd' then 5 else 6
    case 5 => if s[1] == 't' then 3 else if s[1] == 'i' then 7 else if s[1] == 'u' then 35 else 40
    case 6 => if s[0] == 's' then 2 else 45
    case 8 => if s[0] == 'l' then (if s[2] == 'x' then 16 else 18) else if s[2] == 'x' then 20 else 22
    case 9 =>
      if s[0] == 'v' then 49 else if s[0] == 'l' then (if s[2] == 'x' then 17 else 19) else
      if s[0] == 'r' then (if s[2] == 'x' then 21 else 23) else
      if s[0] == 'd' then (if s[5] == 'n' then 61 else 62) else if s[8] == 'a' then 26 else
      if s[8] == 'b' then 27 else if s[8] == 'c' then 28 else 29
    case 10 =>
      if s[2] == 'n' then 30 else if s[2] == 'd' then 48 else if s[2] == 'a' then 51 else if s[2] == 'v' then 52 else
      if s[2] == 'r' then 70 else if s[2] == 's' then 81 else if s[2] == '_' then 83 else 90
    case 11 =>
      if s[8] == '_' then 31 else if s[8] == 'e' then 65 else if s[8] == 'r' then 66 else
      if s[8] == 'g' then (if s[0] == 'g' then 24 else 37) else
      if s[8] == 'o' then (if s[0] == 'v' then 50 else 64) else if s[0] == 'p' then 55 else 57
    case 12 => if s[0] == 'p' then 46 else if s[0] == 'c' then 67 else 89
    case 13 =>
      if s[11] == 'w' then 32 else if s[11] == 'f' then 33 else if s[11] == 'e' then 36 else
      if s[11] == 'o' then 38 else if s[11] == 'n' then 39 else if s[11] == 'c' then 47 else
      if s[11] == 'a' then 56 else 63
    case 14 => if s[0] == 'g' then 34 else 80
    case 15 => if s[0] == 'h' then 44 else 79
    case 16 => if s[0] == 'c' then 68 else if s[0] == 'r' then 71 else 72
    case 17 =>
      if s[8] == 'l' then 43 else if s[8] == 'c' then 60 else if s[8] == 'd' then 69 else if s[8] == 'r' then 73 else
      if s[8] == 's' then 74 else if s[8] == 't' then (if s[0] == 'h' then 42 else 82) else
      if s[0] == 'g' then 75 else 76
    case 18 => if s[0] == 'g' then 25 else if s[0] == 't' then 78 else 86
    case 19 =>
      if s[11] == '_' then 41 else if s[11] == 'i' then 53 else if s[11] == 'd' then 54 else
      if s[11] == 'u' then 77 else if s[11] == 'g' then 84 else if s[11] == 't' then 85 else 87
    case 20 => if s[12] == 'i' then 58 else 59
    case 24 => 88
    case _ => ROWS
  }

  /** Where a kind's ending would stand in a text that ended in it. */
  predicate Ending(s: string, back: nat, second: char, third: char)
    requires back >= 3
  {
    |s| >= back && s[|s| - back] == '_' && s[|s| - back + 1] == second && s[|s| - back + 2] == third
  }

  /** No base is long, ends like a kind or begins like the rest of a user's prefix. */
  predicate Clear(s: string) {
    && 0 < |s| <= 24
    && !Ending(s, 4, 'b', 't') && !Ending(s, 5, 'a', 'x') && !Ending(s, 5, 'm', 'b')
    && (s[0] != 'p' || (|s| > 4 && (s[1] != 'l' || s[4] != 'e')))
  }

  lemma RowsFrom0(k: nat)
    requires k < 6
    ensures RowOf(PadName(k)) == k && Clear(PadName(k))
  {
  }

  lemma RowsFrom6(k: nat)
    requires 6 <= k < 12
    ensures RowOf(PadName(k)) == k && Clear(PadName(k))
  {
  }

  lemma RowsFrom12(k: nat)
    requires 12 <= k < 18
    ensures RowOf(PadName(k)) == k && Clear(PadName(k))
  {
  }

  lemma RowsFrom18(k: nat)
    requires 18 <= k < 24
    ensures RowOf(PadName(k)) == k && Clear(PadName(k))
  {
  }

  lemma RowsFrom24(k: nat)
    requires k < 6
    ensures RowOf(GunName(k)) == k + 24 && Clear(GunName(k))
  {
  }

  lemma RowsFrom30(k: nat)
    requires 6 <= k < 12
    ensures RowOf(GunName(k)) == k + 24 && Clear(GunName(k))
  {
  }

  lemma RowsFrom36(k: nat)
    requires k < 6
    ensures RowOf(HotkeyName(k)) == k + 36 && Clear(HotkeyName(k))
  {
  }

  lemma RowsFrom42(k: nat)
    requires 6 <= k < 13
    ensures RowOf(HotkeyName(k)) == k + 36 && Clear(HotkeyName(k))
  {
  }

  lemma RowsFrom49(k: nat)
    requires 13 <= k < 20
    ensures RowOf(HotkeyName(k)) == k + 36 && Clear(HotkeyName(k))
  {
  }

  lemma RowsFrom56(k: nat)
    requires 20 <= k < 27
    ensures RowOf(HotkeyName(k)) == k + 36 && Clear(HotkeyName(k))
  {
  }

  lemma RowsFrom63(k: nat)
    requires k < 7
    ensures RowOf(LateHotkeyName(k)) == k + 63 && Clear(LateHotkeyName(k))
  {
  }

  lemma RowsFrom70(k: nat)
    requires 7 <= k < 14
    ensures RowOf(LateHotkeyName(k)) == k + 63 && Clear(LateHotkeyName(k))
  {
  }

  lemma RowsFrom77(k: nat)
    requires 14 <= k < 21
    ensures RowOf(LateHotkeyName(k)) == k + 63 && Clear(LateHotkeyName(k))
  {
  }

  lemma RowsFrom84(k: nat)
    requires 21 <= k < 28
    ensures RowOf(LateHotkeyName(k)) == k + 63 && Clear(LateHotkeyName(k))
  {
  }

  /** Every row is found again by its base name, and every base name is clear. */
  lemma RowsFound(row: nat)
    requires row < ROWS
    ensures RowOf(Base(row)) == row && Clear(Base(row))
  {
    hide RowOf, Clear, PadName, GunName, HotkeyName, LateHotkeyName;
    if row < 6 {
      RowsFrom0(row);
    } else if row < 12 {
      RowsFrom6(row);
    } else if row < 18 {
      RowsFrom12(row);
    } else if row < 24 {
      RowsFrom18(row);
    } else if row < 30 {
      RowsFrom24(row - 24);
    } else if row < 36 {
      RowsFrom30(row - 24);
    } else if row < 42 {
      RowsFrom36(row - 36);
    } else if row < 49 {
      RowsFrom42(row - 36);
    } else if row < 56 {
      RowsFrom49(row - 36);
    } else if row < 63 {
      RowsFrom56(row - 36);
    } else if row < 70 {
      RowsFrom63(row - 63);
    } else if row < 77 {
      RowsFrom70(row - 63);
    } else if row < 84 {
      RowsFrom77(row - 63);
    } else {
      RowsFrom84(row - 63);
    }
  }

  // ----- the names of entries -----

  /** What an entry of a file says about a bind. */
  datatype Kind = Key | Button | Stick | Mouse

  /** Profiles of devices and hotkeys name no user. */
  datatype Owner = Nobody | Player(user: nat)

  /** A text that is saved for a bind. */
  datatype Slot = Slot(owner: Owner, row: nat, kind: Kind)
  {
    predicate Proper() {
      row < ROWS && (owner.Player? ==> owner.user < RemapKeys.MAX_USERS)
    }
  }

  function KindName(k: Kind): string {
    match k
    case Key => ""
    case Button => "_btn"
    case Stick => "_axis"
    case Mouse => "_mbtn"
  }

  function OwnerName(o: Owner): string {
    match o
    case Nobody => "input"
    case Player(u) => RemapKeys.Prefix(u)
  }

  function Name(s: Slot): string
    requires s.Proper()
  {
    KeyFor(OwnerName(s.owner), Base(s.row), KindName(s.kind))
  }

  /** The kind of an entry, read off the end of its name. */
  function KindOf(s: string): Kind {
    if Ending(s, 4, 'b', 't') then Button
    else if Ending(s, 5, 'a', 'x') then Stick
    else if Ending(s, 5, 'm', 'b') then Mouse
    else Key
  }

  lemma KindRead(base: string, k: Kind)
    requires Clear(base)
    ensures KindOf(base + KindName(k)) == k
  {
    if k == Key {
      assert base + KindName(k) == base;
    }
  }

  lemma BaseRead(b: string, k: Kind, c: string, l: Kind)
    requires Clear(b) && Clear(c) && b + KindName(k) == c + KindName(l)
    ensures b == c && k == l
  {
    hide KindOf, Clear, KindName;
    KindRead(b, k);
    KindRead(c, l);
    assert b == (b + KindName(k))[..|b|];
    assert c == (c + KindName(l))[..|c|];
  }

  /** What follows a user's number, or `input` where no user is named. */
  function Rest(s: Slot): (r: string)
    requires s.Proper()
    ensures r != [] && r[0] == '_' && r[1..] == Base(s.row) + KindName(s.kind)
  {
    "_" + (Base(s.row) + KindName(s.kind))
  }

  lemma NameParts(s: Slot)
    requires s.Proper()
    ensures s.owner.Player? ==> Name(s) == "input_player" + (Digits(s.owner.user + 1) + Rest(s))
    ensures s.owner.Nobody? ==> Name(s) == "input" + Rest(s)
  {
    hide Digits, Base, KindName;
  }

  /** The letters after `input_` tell whether a user is named. */
  predicate NamesPlayer(s: string) {
    |s| > 10 && s[6] == 'p' && s[7] == 'l' && s[10] == 'e'
  }

  lemma OwnerRead(s: Slot)
    requires s.Proper()
    ensures NamesPlayer(Name(s)) <==> s.owner.Player?
  {
    hide Digits, Base, KindName, Name, RowOf;
    NameParts(s);
    RowsFound(s.row);
    if s.owner.Player? {
      PlayerLetters(Digits(s.owner.user + 1) + Rest(s));
    } else {
      OtherLetters(Base(s.row), KindName(s.kind));
      assert "input" + Rest(s) == "input_" + (Base(s.row) + KindName(s.kind));
    }
  }

  lemma PlayerLetters(rest: string)
    ensures NamesPlayer("input_player" + rest)
  {
  }

  lemma OtherLetters(base: string, kind: string)
    requires Clear(base)
    ensures !NamesPlayer("input_" + (base + kind))
  {
    var s := "input_" + (base + kind);
    assert forall i :: 0 <= i < |base| ==> s[6 + i] == base[i];
  }

  lemma RestsDiffer(s: Slot, t: Slot)
    requires s.Proper() && t.Proper() && Rest(s) == Rest(t)
    ensures s.row == t.row && s.kind == t.kind
  {
    hide Base, KindName, Clear, RowOf;
    RowsFound(s.row);
    RowsFound(t.row);
    BaseRead(Base(s.row), s.kind, Base(t.row), t.kind);
  }

  /** No two entries share a name, whatever their users, rows and kinds. */
  lemma NamesDiffer(s: Slot, t: Slot)
    requires s.Proper() && t.Proper() && Name(s) == Name(t)
    ensures s == t
  {
    hide Digits, Name, Rest, NamesPlayer;
    OwnerRead(s);
    OwnerRead(t);
    NameParts(s);
    NameParts(t);
    if s.owner.Player? {
      var p, q := Digits(s.owner.user + 1) + Rest(s), Digits(t.owner.user + 1) + Rest(t);
      assert p == Name(s)[12..] && q == Name(t)[12..];
      DigitsPrefixFree(s.owner.user + 1, t.owner.user + 1, Rest(s), Rest(t));
    } else {
      assert Rest(s) == Name(s)[5..] && Rest(t) == Name(t)[5..];
    }
    RestsDiffer(s, t);
  }

  /** Every name fits the 64 bytes of the buffers it is built in, with its terminator. */
  lemma NamesFit(s: Slot)
    requires s.Proper()
    ensures |Name(s)| < 64
  {
    hide Digits, Base, RowOf;
    NameParts(s);
    RowsFound(s.row);
    if s.owner.Player? {
      RemapKeys.UserNumberShort(s.owner.user);
    }
  }
}
