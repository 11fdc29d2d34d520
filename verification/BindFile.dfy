/**
 Saving whole tables of binds: the profile of a device, which is read back, and the binds of every user. As no two
 entries share a name, each bind comes back under its own condition, whatever is saved beside it.
 */
module BindFile {
  import opened Options
  import opened Keybind
  import opened BindTable
  import RemapKeys

  function At(entries: map<string, string>, s: Slot): Option<string>
    requires s.Proper()
  {
    if Name(s) in entries then Some(entries[Name(s)]) else None
  }

  /** Setting one entry leaves every other as it was. */
  lemma AtOther(entries: map<string, string>, s: Slot, text: string)
    requires s.Proper()
    ensures forall t: Slot :: t.Proper() ==>
              At(entries[Name(s) := text], t) == if t == s then Some(text) else At(entries, t)
  {
    hide Name;
    forall t: Slot | t.Proper() && Name(t) == Name(s) ensures t == s {
      NamesDiffer(s, t);
    }
  }

  /** What is saved of a bind, kind by kind; a profile has only its button and its axis, and only those in use. */
  function TextOf(bind: Bind, kind: Kind, profile: bool): Option<string>
    reads bind
  {
    match kind
    case Key => if profile then None else Some(bind.key)
    case Button => JoyKeyText(bind.joykey, !profile)
    case Stick => AxisText(bind.joyaxis, !profile)
    case Mouse => if profile then None else Some(MouseText(bind.mbutton))
  }

  function Over(text: Option<string>, before: Option<string>): Option<string> {
    if text.Some? then text else before
  }

  /** The button and the axis of one bind. */
  method SaveJoypad(file: KeyFile, owner: Owner, row: nat, bind: Bind, profile: bool)
    requires Slot(owner, row, Key).Proper()
    modifies file
    ensures forall s: Slot :: s.Proper() ==>
              At(file.entries, s) ==
              if s == Slot(owner, row, Button) || s == Slot(owner, row, Stick)
              then Over(TextOf(bind, s.kind, profile), old(At(file.entries, s)))
              else old(At(file.entries, s))
  {
    hide Name, Base, OwnerName, JoyKeyText, AxisText, KeyFor;
    ghost var before := file.entries;
    NameIs(owner, row);
    SaveJoyKey(file, OwnerName(owner), Base(row), bind, !profile);
    ghost var between := file.entries;
    SaveAxis(file, OwnerName(owner), Base(row), bind, !profile);
    if JoyKeyText(bind.joykey, !profile).Some? {
      AtOther(before, Slot(owner, row, Button), JoyKeyText(bind.joykey, !profile).value);
    }
    if AxisText(bind.joyaxis, !profile).Some? {
      AtOther(between, Slot(owner, row, Stick), AxisText(bind.joyaxis, !profile).value);
    }
  }

  lemma NameIs(owner: Owner, row: nat)
    requires Slot(owner, row, Key).Proper()
    ensures Name(Slot(owner, row, Key)) == KeyFor(OwnerName(owner), Base(row), "")
    ensures Name(Slot(owner, row, Button)) == KeyFor(OwnerName(owner), Base(row), "_btn")
    ensures Name(Slot(owner, row, Stick)) == KeyFor(OwnerName(owner), Base(row), "_axis")
    ensures Name(Slot(owner, row, Mouse)) == KeyFor(OwnerName(owner), Base(row), "_mbtn")
  {
    hide KeyFor, Base, OwnerName;
  }

  // ----- the profile of a device -----

  predicate InProfile(binds: seq<Bind>, s: Slot, rows: nat)
    requires rows <= |binds|
    reads binds
  {
    s.owner.Nobody? && s.row < rows && binds[s.row].valid
  }

  /** The profile holds the text of every valid bind of a user that has one; nothing else changes. */
  method SaveProfile(file: KeyFile, binds: seq<Bind>)
    requires |binds| == ROWS
    modifies file
    ensures forall s: Slot :: s.Proper() ==>
              At(file.entries, s) ==
              if InProfile(binds, s, FIRST_META)
              then Over(TextOf(binds[s.row], s.kind, true), old(At(file.entries, s)))
              else old(At(file.entries, s))
  {
    hide At, JoyKeyText, AxisText;
    for i := 0 to FIRST_META
      invariant forall s: Slot :: s.Proper() ==>
                  At(file.entries, s) ==
                  if InProfile(binds, s, i)
                  then Over(TextOf(binds[s.row], s.kind, true), old(At(file.entries, s)))
                  else old(At(file.entries, s))
    {
      if binds[i].valid {
        SaveJoypad(file, Nobody, i, binds[i], true);
      }
    }
  }

  /** Every row of a device's binds is looked up, hotkeys too. */
  method ParseProfile(file: KeyFile, binds: seq<Bind>)
    requires |binds| == ROWS && forall i, j :: 0 <= i < j < ROWS ==> binds[i] != binds[j]
    modifies binds`joykey, binds`joyaxis
    ensures forall i: nat :: i < ROWS ==>
              && binds[i].joykey == JoyKeyIn(file.entries, "input", Base(i), old(binds[i].joykey))
              && binds[i].joyaxis == AxisIn(file.entries, "input", Base(i), old(binds[i].joyaxis))
  {
    hide Base, JoyKeyIn, AxisIn;
    for i := 0 to ROWS
      invariant forall j: nat :: j < i ==>
                  && binds[j].joykey == JoyKeyIn(file.entries, "input", Base(j), old(binds[j].joykey))
                  && binds[j].joyaxis == AxisIn(file.entries, "input", Base(j), old(binds[j].joyaxis))
      invariant forall j: nat :: i <= j < ROWS ==>
                  binds[j].joykey == old(binds[j].joykey) && binds[j].joyaxis == old(binds[j].joyaxis)
    {
      ParseJoyButton(file, "input", Base(i), binds[i]);
      ParseJoyAxis(file, "input", Base(i), binds[i]);
    }
  }

  lemma ButtonBack(was: map<string, string>, now: map<string, string>, owner: Owner, row: nat, k: JoyKey, empty: bool,
                   before: JoyKey)
    requires Slot(owner, row, Button).Proper() && k.Proper()
    requires At(now, Slot(owner, row, Button)) == Over(JoyKeyText(k, empty), At(was, Slot(owner, row, Button)))
    ensures JoyKeyIn(now, OwnerName(owner), Base(row), before) == k <==>
              ButtonReturns(k, empty, before, JoyKeyIn(was, OwnerName(owner), Base(row), before))
  {
    hide Name, KeyFor, Base, OwnerName, JoyKeyText, ParseJoyKey;
    NameIs(owner, row);
    NothingSaved(k, NO_AXIS, empty);
    if JoyKeyText(k, empty).Some? {
      JoyKeyRoundTrip(k, empty, before);
    }
  }

  lemma AxisBack(was: map<string, string>, now: map<string, string>, owner: Owner, row: nat, a: Axis, empty: bool,
                 before: Axis)
    requires Slot(owner, row, Stick).Proper() && a.negative.Proper() && a.positive.Proper()
    requires At(now, Slot(owner, row, Stick)) == Over(AxisText(a, empty), At(was, Slot(owner, row, Stick)))
    ensures AxisIn(now, OwnerName(owner), Base(row), before) == a <==>
              AxisReturns(a, empty, AxisIn(was, OwnerName(owner), Base(row), before))
  {
    hide Name, KeyFor, Base, OwnerName, AxisText, ParseAxis;
    NameIs(owner, row);
    NothingSaved(NoButton, a, empty);
    if AxisText(a, empty).Some? {
      AxisRoundTrip(a, empty, before);
    }
  }

  lemma NothingSaved(k: JoyKey, a: Axis, empty: bool)
    ensures JoyKeyText(k, empty).None? <==> k == NoButton && !empty
    ensures AxisText(a, empty).None? <==> a == NO_AXIS && !empty
  {
  }

  /**
   A user's binds saved to a profile, over whatever it held, and read back into another array. Each row that was saved
   comes back exactly under its own condition; every other row is what the old profile made of it.
   */
  method SaveAndParseProfile(file: KeyFile, source: seq<Bind>, target: seq<Bind>)
    requires |source| == |target| == ROWS && forall i, j :: 0 <= i < j < ROWS ==> target[i] != target[j]
    requires forall i, j :: 0 <= i < ROWS && 0 <= j < ROWS ==> source[i] != target[j]
    requires forall i: nat :: i < ROWS ==> source[i].Proper()
    modifies file, target`joykey, target`joyaxis
    ensures forall i: nat :: i < FIRST_META && source[i].valid ==>
              && (target[i].joykey == source[i].joykey <==>
                  ButtonReturns(source[i].joykey, false, old(target[i].joykey),
                                JoyKeyIn(old(file.entries), "input", Base(i), old(target[i].joykey))))
              && (target[i].joyaxis == source[i].joyaxis <==>
                  AxisReturns(source[i].joyaxis, false,
                              AxisIn(old(file.entries), "input", Base(i), old(target[i].joyaxis))))
    ensures forall i: nat :: i < ROWS && !(i < FIRST_META && source[i].valid) ==>
              && target[i].joykey == JoyKeyIn(old(file.entries), "input", Base(i), old(target[i].joykey))
              && target[i].joyaxis == AxisIn(old(file.entries), "input", Base(i), old(target[i].joyaxis))
  {
    hide At, Base, JoyKeyText, AxisText, JoyKeyIn, AxisIn, ButtonReturns, AxisReturns;
    ghost var was := file.entries;
    SaveProfile(file, source);
    ghost var now := file.entries;
    forall i: nat | i < ROWS
      ensures i < FIRST_META && source[i].valid ==>
                && (JoyKeyIn(now, "input", Base(i), target[i].joykey) == source[i].joykey <==>
                    ButtonReturns(source[i].joykey, false, target[i].joykey,
                                  JoyKeyIn(was, "input", Base(i), target[i].joykey)))
                && (AxisIn(now, "input", Base(i), target[i].joyaxis) == source[i].joyaxis <==>
                    AxisReturns(source[i].joyaxis, false, AxisIn(was, "input", Base(i), target[i].joyaxis)))
      ensures !(i < FIRST_META && source[i].valid) ==>
                && JoyKeyIn(now, "input", Base(i), target[i].joykey) ==
                   JoyKeyIn(was, "input", Base(i), target[i].joykey)
                && AxisIn(now, "input", Base(i), target[i].joyaxis) == AxisIn(was, "input", Base(i), target[i].joyaxis)
    {
      if i < FIRST_META && source[i].valid {
        ButtonBack(was, now, Nobody, i, source[i].joykey, false, target[i].joykey);
        AxisBack(was, now, Nobody, i, source[i].joyaxis, false, target[i].joyaxis);
      } else {
        SameEntry(was, now, Nobody, i, target[i].joykey, target[i].joyaxis);
      }
    }
    ParseProfile(file, target);
  }

  lemma SameEntry(was: map<string, string>, now: map<string, string>, owner: Owner, row: nat, k: JoyKey, a: Axis)
    requires Slot(owner, row, Key).Proper()
    requires At(now, Slot(owner, row, Button)) == At(was, Slot(owner, row, Button))
    requires At(now, Slot(owner, row, Stick)) == At(was, Slot(owner, row, Stick))
    ensures JoyKeyIn(now, OwnerName(owner), Base(row), k) == JoyKeyIn(was, OwnerName(owner), Base(row), k)
    ensures AxisIn(now, OwnerName(owner), Base(row), a) == AxisIn(was, OwnerName(owner), Base(row), a)
  {
    hide Name, KeyFor, Base, OwnerName, ParseJoyKey, ParseAxis;
    NameIs(owner, row);
  }

  // ----- the binds of every user -----

  /** Under whose name a user's row is saved; only the first user has hotkeys. */
  function OwnerOf(user: nat, row: nat): Option<Owner> {
    if row < FIRST_META then Some(Player(user)) else if user == 0 then Some(Nobody) else None
  }

  /** The four entries of one bind. */
  method SaveBind(file: KeyFile, owner: Owner, row: nat, bind: Bind)
    requires Slot(owner, row, Key).Proper()
    modifies file
    ensures forall s: Slot :: s.Proper() ==>
              At(file.entries, s) ==
              if s.owner == owner && s.row == row then TextOf(bind, s.kind, false) else old(At(file.entries, s))
  {
    hide Name, Base, OwnerName, JoyKeyText, AxisText, KeyFor, At;
    NameIs(owner, row);
    NothingSaved(bind.joykey, bind.joyaxis, true);
    AtOther(file.entries, Slot(owner, row, Key), bind.key);
    file.entries := file.entries[KeyFor(OwnerName(owner), Base(row), "") := bind.key];
    SaveJoypad(file, owner, row, bind, false);
    AtOther(file.entries, Slot(owner, row, Mouse), MouseText(bind.mbutton));
    SaveMouse(file, OwnerName(owner), Base(row), bind);
  }

  method SaveUser(file: KeyFile, user: nat, binds: seq<Bind>)
    requires user < RemapKeys.MAX_USERS && |binds| == ROWS
    modifies file
    ensures forall s: Slot :: s.Proper() ==>
              At(file.entries, s) ==
              if OwnerOf(user, s.row) == Some(s.owner) && binds[s.row].valid
              then TextOf(binds[s.row], s.kind, false)
              else old(At(file.entries, s))
  {
    hide At, TextOf;
    for i := 0 to ROWS
      invariant forall s: Slot :: s.Proper() ==>
                  At(file.entries, s) ==
                  if OwnerOf(user, s.row) == Some(s.owner) && s.row < i && binds[s.row].valid
                  then TextOf(binds[s.row], s.kind, false)
                  else old(At(file.entries, s))
    {
      var owner := OwnerOf(user, i);
      if owner.Some? && binds[i].valid {
        SaveBind(file, owner.value, i, binds[i]);
      }
    }
  }

  /** The user whose bind an entry is about, if it is about a user's bind at all. */
  function UserOf(s: Slot): Option<nat> {
    if s.owner.Player? && s.row < FIRST_META then Some(s.owner.user)
    else if s.owner.Nobody? && s.row >= FIRST_META then Some(0)
    else None
  }

  predicate Saved(binds: seq<seq<Bind>>, s: Slot, users: nat)
    requires s.Proper() && users <= |binds| && forall r :: r in binds ==> |r| == ROWS
    reads set u: nat, i: nat | u < |binds| && i < |binds[u]| :: binds[u][i]
  {
    UserOf(s).Some? && UserOf(s).value < users && binds[UserOf(s).value][s.row].valid
  }

  /**
   A bind that every parser gives back: its mouse button and the name of its key always, its button unless it has no
   name, its axis unless both halves are in use.
   */
  ghost predicate Returns(entries: map<string, string>, owner: Owner, row: nat, bind: Bind)
    requires Slot(owner, row, Key).Proper()
    reads bind
  {
    && At(entries, Slot(owner, row, Key)) == Some(bind.key)
    && (forall before :: JoyKeyIn(entries, OwnerName(owner), Base(row), before) == bind.joykey <==>
                         !Nameless(bind.joykey) || before == bind.joykey)
    && (forall before :: AxisIn(entries, OwnerName(owner), Base(row), before) == bind.joyaxis <==>
                         !(bind.joyaxis.negative.Used? && bind.joyaxis.positive.Used?))
    && (forall before :: MouseIn(entries, OwnerName(owner), Base(row), before) == bind.mbutton)
  }

  lemma SavedReturns(entries: map<string, string>, owner: Owner, row: nat, bind: Bind)
    requires Slot(owner, row, Key).Proper() && bind.Proper()
    requires forall k: Kind :: At(entries, Slot(owner, row, k)) == TextOf(bind, k, false)
    ensures Returns(entries, owner, row, bind)
  {
    hide Name, KeyFor, Base, OwnerName, JoyKeyText, AxisText, JoyKeyIn, AxisIn, ParseMouse, MouseText, At;
    NothingSaved(bind.joykey, bind.joyaxis, true);
    forall before ensures JoyKeyIn(entries, OwnerName(owner), Base(row), before) == bind.joykey <==>
                          !Nameless(bind.joykey) || before == bind.joykey {
      ButtonBack(entries, entries, owner, row, bind.joykey, true, before);
    }
    forall before ensures AxisIn(entries, OwnerName(owner), Base(row), before) == bind.joyaxis <==>
                          !(bind.joyaxis.negative.Used? && bind.joyaxis.positive.Used?) {
      AxisBack(entries, entries, owner, row, bind.joyaxis, true, before);
    }
    MouseBack(entries, owner, row, bind.mbutton);
  }

  lemma MouseBack(entries: map<string, string>, owner: Owner, row: nat, m: MouseButton)
    requires Slot(owner, row, Mouse).Proper()
    requires At(entries, Slot(owner, row, Mouse)) == Some(MouseText(m))
    ensures forall before :: MouseIn(entries, OwnerName(owner), Base(row), before) == m
  {
    hide Name, KeyFor, Base, OwnerName, ParseMouse, MouseText;
    NameIs(owner, row);
    MouseRoundTrip(m);
  }

  /**
   The file holds the four texts of every valid bind of every user, each under its own name, and nothing else changes;
   so each of them comes back, under its own condition.
   */
  method SaveUsers(file: KeyFile, binds: seq<seq<Bind>>)
    requires |binds| == RemapKeys.MAX_USERS && forall r :: r in binds ==> |r| == ROWS
    requires forall u: nat, i: nat :: u < |binds| && i < ROWS ==> binds[u][i].Proper()
    modifies file
    ensures forall s: Slot :: s.Proper() ==>
              At(file.entries, s) ==
              if Saved(binds, s, RemapKeys.MAX_USERS)
              then TextOf(binds[UserOf(s).value][s.row], s.kind, false)
              else old(At(file.entries, s))
    ensures forall u: nat, i: nat :: u < |binds| && i < ROWS && binds[u][i].valid && OwnerOf(u, i).Some? ==>
              Returns(file.entries, OwnerOf(u, i).value, i, binds[u][i])
  {
    hide At, TextOf, Returns;
    for u := 0 to RemapKeys.MAX_USERS
      invariant forall s: Slot :: s.Proper() ==>
                  At(file.entries, s) ==
                  if Saved(binds, s, u)
                  then TextOf(binds[UserOf(s).value][s.row], s.kind, false)
                  else old(At(file.entries, s))
    {
      SaveUser(file, u, binds[u]);
    }
    forall u: nat, i: nat | u < |binds| && i < ROWS && binds[u][i].valid && OwnerOf(u, i).Some?
      ensures Returns(file.entries, OwnerOf(u, i).value, i, binds[u][i])
    {
      SavedReturns(file.entries, OwnerOf(u, i).value, i, binds[u][i]);
    }
  }
}
