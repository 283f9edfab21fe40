/** Disk control (libretro.c, issue #651): an image list in a fixed array, a tray flag, and an
  * insert that re-resolves the boot and undoes itself when it fails. */
module DiskControl {
  import opened Common

  const DISK_MAX_IMAGES := 8
  const PATH_SIZE := 4096

  type Path = string

  /** strncpy into a path buffer. */
  function ClipPath(p: Path): (r: Path)
    ensures |r| < PATH_SIZE && r <= p && (|p| < PATH_SIZE ==> r == p) && (|p| >= PATH_SIZE ==> |r| == PATH_SIZE - 1)
  {
    if |p| < PATH_SIZE then p else p[..PATH_SIZE - 1]
  }

  /** A resolved boot configuration; the core only copies and restores it here. */
  type Boot = string

  /** How the outside world answers one insert: opening the selected image, resolving and
    * starting its boot, and (after a failure) reopening the previous image. */
  datatype Answer =
    | OpenFails(reopens: bool)
    | NoBiosForAudio(boot: Boot, reopens: bool)
    | BootRefuses(boot: Boot, reopens: bool)
    | Boots(boot: Boot)

  datatype State = State(images: seq<Path>, index: nat, ejected: bool,
                         boot: Boot, cdMode: bool, imagePath: Path, drive: Option<Path>)

  predicate CanInsert(s: State) {
    s.images != [] && s.index < |s.images| && s.images[s.index] != ""
  }

  /** Closing an open tray: the selected disc is opened and booted; on any failure boot
    * configuration, CD mode and image path go back, and the previous image is reopened if there
    * was one. */
  function Insert(s: State, a: Answer): (State, bool) {
    if !s.ejected then (s, true)
    else if !CanInsert(s) then (s, false)
    else
      var path := ClipPath(s.images[s.index]);
      var trial := s.(cdMode := true, imagePath := path);
      match a
      case Boots(boot) => (trial.(boot := boot, drive := Some(path), ejected := false), true)
      case OpenFails(reopens) => (Restore(s, None, reopens), false)
      case NoBiosForAudio(_, reopens) => (Restore(s, None, reopens), false)
      case BootRefuses(_, reopens) => (Restore(s, Some(path), reopens), false)
  }

  /** The common failure path, with `drive` as the failed attempt left it: the title probe of a
    * previous image empties the drive, and then it is reopened if it can be. */
  function Restore(s: State, drive: Option<Path>, reopens: bool): State {
    s.(drive := if s.imagePath == "" then drive else if reopens then Some(s.imagePath) else None)
  }

  function SetEject(s: State, eject: bool, a: Answer): (State, bool) {
    if eject then (s.(ejected := true), true) else Insert(s, a)
  }

  function SetIndex(s: State, i: nat, a: Answer): (State, bool) {
    if i >= |s.images| then (s, false)
    else if s.ejected then (s.(index := i), true)
    else Insert(s.(index := i, ejected := true), a)
  }

  /** Delete (no path) or update one entry. */
  function Replace(s: State, i: nat, path: Option<Path>): (State, bool) {
    if i >= |s.images| then (s, false)
    else if path.Some? then (s.(images := s.images[i := ClipPath(path.value)]), true)
    else
      var left := s.images[..i] + s.images[i + 1..];
      (s.(images := left,
          index := if left == [] then 0 else if s.index >= |left| then |left| - 1 else s.index), true)
  }

  function Add(s: State): (State, bool) {
    if |s.images| >= DISK_MAX_IMAGES then (s, false) else (s.(images := s.images + [""]), true)
  }

  datatype Content = Cartridge | Disc(path: Path) | NoContent | CartBootRom

  /** How a load went: given up before the content was looked at (after probing a disc for its
    * title, or before that), the image unreadable or without the BIOS it needs, the boot refused,
    * or started. */
  datatype Outcome = Unready(probed: bool) | Unreadable | NoBios(boot: Boot) | Refused(boot: Boot) | Started(boot: Boot)

  /** retro_load_game.  The probe, a failed open and both failure clean-ups leave the drive empty;
    * CD mode and path stay as far as they were set. */
  function Load(s: State, c: Content, a: Outcome): State {
    var probed := if c.Disc? && c.path != "" then s.(drive := None) else s;
    if a.Unready? then if a.probed then probed else s
    else
      var boot := if a.Unreadable? then s.boot else a.boot;
      var begun := probed.(cdMode := c.Disc? || c.NoContent?, imagePath := if c.Disc? then ClipPath(c.path) else "",
                           boot := boot);
      if !a.Started? then begun.(drive := None)
      else if c.Disc? then begun.(drive := Some(ClipPath(c.path)))
      else begun
  }

  datatype Event =
    | SetEjectState(eject: bool, a: Answer)
    | SetImageIndex(i: nat, a: Answer)
    | ReplaceImageIndex(i: nat, path: Option<Path>)
    | AddImageIndex
    | LoadState(discIndex: nat)
    | LoadGame(c: Content, outcome: Outcome)
    | UnloadGame

  function Next(s: State, e: Event): State {
    match e
    case SetEjectState(eject, a) => SetEject(s, eject, a).0
    case SetImageIndex(i, a) => SetIndex(s, i, a).0
    case ReplaceImageIndex(i, path) => Replace(s, i, path).0
    case AddImageIndex => Add(s).0
    case LoadState(i) => if i < |s.images| then s.(index := i) else s
    case LoadGame(c, outcome) => Load(s, c, outcome)
    case UnloadGame => State([], 0, false, s.boot, false, "", None)
  }

  function Exec(s: State, run: seq<Event>): State {
    if run == [] then s else Next(Exec(s, run[..|run|-1]), run[|run|-1])
  }

  function PowerOn(boot: Boot): State { State([], 0, false, boot, false, "", None) }

  // ---------------------------------------------------------------- every run

  ghost predicate IndexInList(s: State) {
    && |s.images| <= DISK_MAX_IMAGES
    && (s.index < |s.images| || (s.index == 0 && s.images == []))
    && forall i :: 0 <= i < |s.images| ==> |s.images[i]| < PATH_SIZE
  }

  lemma ReplaceInList(s: State, i: nat, p: Option<Path>)
    requires IndexInList(s)
    ensures IndexInList(Replace(s, i, p).0)
  {
  }

  lemma StepInList(s: State, e: Event)
    requires IndexInList(s)
    ensures IndexInList(Next(s, e))
  {
    if e.ReplaceImageIndex? {
      ReplaceInList(s, e.i, e.path);
    }
  }

  /** In every run of any entry points in any order, state loads included, the list fits its
    * array and the index names an image of it, or both are zero. */
  lemma {:induction false} IndexAlwaysInList(boot: Boot, run: seq<Event>)
    ensures IndexInList(Exec(PowerOn(boot), run))
  {
    if run != [] {
      IndexAlwaysInList(boot, run[..|run|-1]);
      StepInList(Exec(PowerOn(boot), run[..|run|-1]), run[|run|-1]);
    }
  }

  /** A closing that succeeds ends closed with the selected image mounted and its own boot in
    * force; one that fails leaves the tray open and boot configuration, CD mode, image path,
    * list and selection as they were. */
  lemma InsertOutcome(s: State, a: Answer)
    requires IndexInList(s) && s.ejected
    ensures var (t, ok) := Insert(s, a);
      && (ok <==> CanInsert(s) && a.Boots?)
      && (ok ==> !t.ejected && t.drive == Some(s.images[s.index]) && t.imagePath == s.images[s.index]
                 && t.cdMode && t.boot == a.boot && t.images == s.images && t.index == s.index)
      && (!ok ==> t == s.(drive := t.drive))
  {
  }

  /** The drive holds the image of the recorded path, or nothing. */
  ghost predicate DriveOk(s: State) {
    && (s.drive == None || s.drive == Some(s.imagePath))
    && (s.imagePath == "" ==> s.drive == None)
  }

  /** What the drive holds after a failed insert.  With a previous image: that one again if it can be
    * reopened, else nothing.  With none: nothing, unless the new image opened but refused to boot;
    * then the drive keeps it, because the restore closes and reopens by path and an empty path
    * does neither.  An insert with nothing to open changes nothing. */
  lemma DriveAfterFailedInsert(s: State, a: Answer)
    requires IndexInList(s) && s.ejected && !Insert(s, a).1
    ensures var t := Insert(s, a).0;
      && (CanInsert(s) && s.imagePath != "" ==> t.drive == if a.reopens then Some(s.imagePath) else None)
      && (CanInsert(s) && s.imagePath == "" ==> t.drive == if a.BootRefuses? then Some(s.images[s.index]) else None)
      && (!CanInsert(s) ==> t == s)
  {
  }

  /** The events that leave the machine alone, each in full: an eject only opens the tray, a close
    * of a closed tray does nothing, an index past the list is refused, with the tray open only the
    * selection moves, a state selects an image that is there, and an unload forgets everything
    * but the boot configuration. */
  lemma QuietCallbacks(s: State, i: nat, a: Answer)
    ensures SetEject(s, true, a) == (s.(ejected := true), true)
    ensures !s.ejected ==> SetEject(s, false, a) == (s, true)
    ensures i >= |s.images| ==> SetIndex(s, i, a) == (s, false)
    ensures i < |s.images| && s.ejected ==> SetIndex(s, i, a) == (s.(index := i), true)
    ensures Next(s, LoadState(i)) == if i < |s.images| then s.(index := i) else s
    ensures Next(s, UnloadGame) == State([], 0, false, s.boot, false, "", None)
  {
  }

  /** The event closes the tray over an image, or swaps to one with the tray closed. */
  predicate Inserts(s: State, e: Event) {
    match e
    case SetEjectState(eject, _) => !eject && s.ejected && CanInsert(s)
    case SetImageIndex(i, _) => i < |s.images| && !s.ejected && s.images[i] != ""
    case _ => false
  }

  /** With nothing mounted before, it opens its image but refuses to boot it. */
  predicate RefusedFirst(s: State, e: Event) {
    Inserts(s, e) && s.imagePath == "" && e.a.BootRefuses?
  }

  /** The drive after a run, told by its events: the image of the last insert, load or restore that
    * opened one and was not followed by one that closed it. */
  function DriveAfter(boot: Boot, run: seq<Event>): Option<Path> {
    if run == [] then None
    else
      var past, e := run[..|run|-1], run[|run|-1];
      var s := Exec(PowerOn(boot), past);
      if Inserts(s, e) then
        var chosen := s.images[if e.SetImageIndex? then e.i else s.index];
        if e.a.Boots? then Some(chosen)
        else if s.imagePath != "" then if e.a.reopens then Some(s.imagePath) else None
        else if e.a.BootRefuses? then Some(chosen)
        else None
      else match e
        case LoadGame(c, o) =>
          if o.Unready? then if o.probed && c.Disc? && c.path != "" then None else DriveAfter(boot, past)
          else if !o.Started? then None
          else if c.Disc? then Some(ClipPath(c.path))
          else DriveAfter(boot, past)
        case UnloadGame => None
        case _ => DriveAfter(boot, past)
  }

  lemma {:induction false} DriveIsAsTold(boot: Boot, run: seq<Event>)
    ensures Exec(PowerOn(boot), run).drive == DriveAfter(boot, run)
  {
    if run != [] {
      var past := run[..|run|-1];
      IndexAlwaysInList(boot, past);
      DriveIsAsTold(boot, past);
      DriveStep(Exec(PowerOn(boot), past), run[|run|-1]);
    }
  }

  lemma DriveStep(s: State, e: Event)
    requires IndexInList(s)
    ensures Inserts(s, e) ==>
      var chosen := s.images[if e.SetImageIndex? then e.i else s.index];
      Next(s, e).drive ==
        if e.a.Boots? then Some(chosen)
        else if s.imagePath != "" then if e.a.reopens then Some(s.imagePath) else None
        else if e.a.BootRefuses? then Some(chosen)
        else None
    ensures !Inserts(s, e) && !e.LoadGame? && !e.UnloadGame? ==> Next(s, e).drive == s.drive
  {
  }

  /** What a load leaves of the disc-control state: a started one has its boot, its mode and, for a
    * disc, its image; one that failed leaves the drive empty; the list and the tray stay. */
  lemma LoadOutcome(s: State, c: Content, boot: Boot)
    ensures Load(s, c, Started(boot)) ==
      match c
      case Disc(path) => s.(boot := boot, cdMode := true, imagePath := ClipPath(path), drive := Some(ClipPath(path)))
      case NoContent => s.(boot := boot, cdMode := true, imagePath := "")
      case Cartridge => s.(boot := boot, cdMode := false, imagePath := "")
      case CartBootRom => s.(boot := boot, cdMode := false, imagePath := "")
    ensures forall o: Outcome :: !o.Started? && !o.Unready? ==>
      var t := Load(s, c, o);
      && t.drive == None && t.cdMode == (c.Disc? || c.NoContent?)
      && t.boot == (if o.Unreadable? then s.boot else o.boot)
      && t.images == s.images && t.index == s.index && t.ejected == s.ejected
    ensures forall o: Outcome :: o.Unready? ==> Load(s, c, o) == s.(drive := Load(s, c, o).drive)
  {
  }

  /** A frontend's run: a game is loaded at the start, after an unload, or after a load that
    * failed; and disc content has a path. */
  ghost predicate Orderly(run: seq<Event>) {
    forall k :: 0 <= k < |run| && run[k].LoadGame? ==>
      && (run[k].c.Disc? ==> run[k].c.path != "")
      && (k == 0 || run[k - 1].UnloadGame? || (run[k - 1].LoadGame? && !run[k - 1].outcome.Started?))
  }

  /** The last insert of the run, unless a load or an unload came after it, was such a one. */
  predicate Stuck(boot: Boot, run: seq<Event>) {
    run != []
    && var past, e := run[..|run|-1], run[|run|-1];
       var s := Exec(PowerOn(boot), past);
       if Inserts(s, e) then RefusedFirst(s, e) else !e.LoadGame? && !e.UnloadGame? && Stuck(boot, past)
  }

  lemma StepDrive(s: State, e: Event)
    requires IndexInList(s) && (e.LoadGame? ==> s.drive == None && (e.c.Disc? ==> e.c.path != ""))
    ensures DriveOk(Next(s, e)) <==>
      if Inserts(s, e) then !RefusedFirst(s, e) else e.LoadGame? || e.UnloadGame? || DriveOk(s)
  {
  }

  /** A load finds an empty drive. */
  lemma {:induction false} LoadFindsNoDisc(boot: Boot, run: seq<Event>)
    requires Orderly(run) && run != [] && run[|run|-1].LoadGame?
    ensures Exec(PowerOn(boot), run[..|run|-1]).drive == None
  {
    var past := run[..|run|-1];
    if past != [] {
      var last := past[|past|-1];
      assert last == run[|run|-2];
      if last.LoadGame? {
        LoadFindsNoDisc(boot, past);
      }
    }
  }

  /** Over whole runs: with any loads, inserts, swaps and failures in any order, the drive holds
    * the image of the recorded path or nothing, except exactly from an insert that was refused by
    * its boot with nothing mounted before until the next one, a load or an unload.  In between
    * the tray is open, no path is recorded, and the refused disc is in the drive. */
  lemma {:induction false} DriveFollowsPath(boot: Boot, run: seq<Event>)
    requires Orderly(run)
    ensures var s := Exec(PowerOn(boot), run);
      && (DriveOk(s) <==> !Stuck(boot, run))
      && (Stuck(boot, run) ==> s.ejected && s.imagePath == "" && s.drive.Some?)
  {
    if run != [] {
      var past, e := run[..|run|-1], run[|run|-1];
      IndexAlwaysInList(boot, past);
      DriveFollowsPath(boot, past);
      if e.LoadGame? {
        LoadFindsNoDisc(boot, run);
      }
      StepDrive(Exec(PowerOn(boot), past), e);
    }
  }

  /** The exception happens: no content, one image listed, and an insert that opens it but refuses
    * to boot.  The tray is open and no path is recorded, yet the drive holds the disc. */
  lemma RefusedDiscStays(boot: Boot)
    ensures var run := [LoadGame(NoContent, Started("bios")), AddImageIndex, ReplaceImageIndex(0, Some("damaged.cdi")),
                        SetEjectState(true, Boots("")), SetEjectState(false, BootRefuses("hle", false))];
      var s := Exec(PowerOn(boot), run);
      && Orderly(run) && s == State(["damaged.cdi"], 0, true, "bios", true, "", Some("damaged.cdi"))
      && !DriveOk(s)
  {
    var run := [LoadGame(NoContent, Started("bios")), AddImageIndex, ReplaceImageIndex(0, Some("damaged.cdi")),
                SetEjectState(true, Boots("")), SetEjectState(false, BootRefuses("hle", false))];
    var path := "damaged.cdi";
    assert |path| == 11;
    assert run[..1][..0] == [];
    assert Exec(PowerOn(boot), run[..1]) == State([], 0, false, "bios", true, "", None);
    assert run[..2][..1] == run[..1];
    assert Exec(PowerOn(boot), run[..2]) == State([""], 0, false, "bios", true, "", None);
    assert run[..3][..2] == run[..2] && [""][0 := path] == [path];
    assert Exec(PowerOn(boot), run[..3]) == State([path], 0, false, "bios", true, "", None);
    assert run[..4][..3] == run[..3];
    assert Exec(PowerOn(boot), run[..4]) == State([path], 0, true, "bios", true, "", None);
    assert run[..|run|-1] == run[..4];
  }

  /** Selecting an image with the tray closed is an eject and an insert: it succeeds exactly when
    * the insert does, and the new selection stands either way. */
  lemma SetIndexIsEjectInsert(s: State, i: nat, a: Answer)
    requires IndexInList(s) && i < |s.images|
    ensures var (t, ok) := SetIndex(s, i, a);
      && t.index == i && t.images == s.images
      && (s.ejected ==> ok && t == s.(index := i))
      && (!s.ejected ==> (t, ok) == SetEject(SetEject(s.(index := i), true, a).0, false, a))
      && (!s.ejected ==> (ok <==> !t.ejected))
  {
  }

  /** Adding, then updating, then deleting the new last entry is the identity on the list and,
    * when the list was not empty, on the selection. */
  lemma AddUpdateDelete(s: State, path: Path)
    requires IndexInList(s) && |s.images| < DISK_MAX_IMAGES
    ensures var n := |s.images|;
      var t := Replace(Replace(Add(s).0, n, Some(path)).0, n, None).0;
      t == s
  {
    var n := |s.images|;
    var u := Replace(Add(s).0, n, Some(path)).0;
    assert u.images == s.images + [ClipPath(path)];
    assert u.images[..n] + u.images[n + 1..] == s.images;
  }

  /** Deleting closes the gap: the images keep their order, and the selection stays where it is
    * unless it would fall off the end. */
  lemma DeleteKeepsOrder(s: State, i: nat, k: nat)
    requires IndexInList(s) && i < |s.images| && k < |s.images| - 1
    ensures var (t, ok) := Replace(s, i, None);
      && ok && |t.images| == |s.images| - 1 && t.images[k] == s.images[if k < i then k else k + 1]
      && t == s.(images := t.images, index := if s.index < |s.images| - 1 then s.index else |s.images| - 2)
  {
  }

  /** Updating changes that entry and no other; adding appends one without a path; neither touches
    * anything else, and both refuse what does not fit. */
  lemma UpdateAndAdd(s: State, i: nat, path: Path)
    requires IndexInList(s)
    ensures i >= |s.images| ==> Replace(s, i, Some(path)) == (s, false) && Replace(s, i, None) == (s, false)
    ensures i < |s.images| && |path| < 4096 ==>
      Replace(s, i, Some(path)) == (s.(images := s.images[i := path]), true)
    ensures Add(s) == if |s.images| < 8 then (s.(images := s.images + [""]), true) else (s, false)
    ensures i < |s.images| && |path| >= 4096 ==>
      Replace(s, i, Some(path)) == (s.(images := s.images[i := path[..4095]]), true)
    ensures |s.images| == 1 ==> Replace(s, 0, None) == (s.(images := [], index := 0), true)
  {
  }

  // ---------------------------------------------------------------- the statics

  class Tray {
    const paths: array<Path>
    var num: nat
    var index: nat
    var ejected: bool
    var boot: Boot
    var cdMode: bool
    var imagePath: Path
    var drive: Option<Path>

    ghost predicate Valid()
      reads this, paths
    {
      paths.Length == DISK_MAX_IMAGES && num <= DISK_MAX_IMAGES && IndexInList(View())
    }

    ghost function View(): State
      reads this, paths
      requires num <= paths.Length
    {
      State(paths[..num], index, ejected, boot, cdMode, imagePath, drive)
    }

    constructor (boot: Boot)
      ensures Valid() && fresh(paths) && View() == PowerOn(boot)
    {
      paths := new Path[DISK_MAX_IMAGES](_ => "");
      num, index, ejected, this.boot, cdMode, imagePath, drive := 0, 0, false, boot, false, "", None;
    }

    /** titledb_probe_disc: opens and closes on its own, leaving the drive empty. */
    method ProbeDisc(path: Path)
      modifies this`drive
      ensures drive == if path == "" then old(drive) else None
    {
      if path != "" {
        drive := None;
      }
    }

    /** open_disc_and_resolve_boot. */
    method OpenAndResolve(path: Path, a: Answer) returns (ok: bool)
      modifies this`cdMode, this`imagePath, this`drive, this`boot
      ensures ok == (a.BootRefuses? || a.Boots?)
      ensures cdMode && imagePath == ClipPath(path)
      ensures drive == if ok then Some(imagePath) else None
      ensures boot == if a.OpenFails? then old(boot) else a.boot
    {
      cdMode := true;
      imagePath := ClipPath(path);
      if a.OpenFails? {
        drive := None;
        return false;
      }
      drive := Some(imagePath);
      boot := a.boot;
      if a.NoBiosForAudio? {
        drive := None;
        return false;
      }
      return true;
    }

    /** disk_set_eject_state. */
    method SetEjectState(eject: bool, a: Answer) returns (ok: bool)
      requires Valid()
      modifies this
      ensures num == old(num) && Valid() && (View(), ok) == SetEject(old(View()), eject, a)
    {
      if eject {
        ejected := true;
        return true;
      }
      if !ejected {
        return true;
      }
      if num == 0 || paths[index] == "" {
        return false;
      }
      var savedBoot, savedMode, savedPath := boot, cdMode, imagePath;
      ProbeDisc(paths[index]);
      var resolved := OpenAndResolve(paths[index], a);
      if !resolved || !a.Boots? {
        boot, cdMode, imagePath := savedBoot, savedMode, savedPath;
        ProbeDisc(imagePath);
        if imagePath != "" && a.reopens {
          drive := Some(imagePath);
        }
        return false;
      }
      ejected := false;
      return true;
    }

    /** disk_set_image_index. */
    method SetImageIndex(i: nat, a: Answer) returns (ok: bool)
      requires Valid()
      modifies this
      ensures Valid() && (View(), ok) == SetIndex(old(View()), i, a)
    {
      if i >= num {
        return false;
      }
      index := i;
      if ejected {
        return true;
      }
      var _ := SetEjectState(true, a);
      ok := SetEjectState(false, a);
    }

    /** The tail moves down one place over entry i. */
    method ShuffleDown(i: nat)
      requires Valid() && i < num
      modifies paths
      ensures paths[..num - 1] == old(paths[..i]) + old(paths[i + 1..num])
    {
      ghost var before := paths[..num];
      var k := i;
      while k + 1 < num
        invariant i <= k < num
        invariant forall j :: 0 <= j < i ==> paths[j] == before[j]
        invariant forall j :: i <= j < k ==> paths[j] == before[j + 1]
        invariant forall j :: k < j < num ==> paths[j] == before[j]
      {
        assert paths[k + 1] == before[k + 1];
        paths[k] := paths[k + 1];
        k := k + 1;
      }
    }

    /** disk_replace_image_index. */
    method ReplaceImageIndex(i: nat, path: Option<Path>) returns (ok: bool)
      requires Valid()
      modifies this, paths
      ensures Valid() && (View(), ok) == Replace(old(View()), i, path)
    {
      ReplaceInList(View(), i, path);
      if i >= num {
        return false;
      }
      ghost var before := paths[..num];
      if path.Some? {
        paths[i] := ClipPath(path.value);
        assert paths[..num] == before[i := ClipPath(path.value)];
        return true;
      }
      assert paths[..i] == before[..i] && paths[i + 1..num] == before[i + 1..];
      ShuffleDown(i);
      num := num - 1;
      if num > 0 && index >= num {
        index := num - 1;
      } else if num == 0 {
        index := 0;
      }
      return true;
    }

    /** disk_add_image_index. */
    method AddImageIndex() returns (ok: bool)
      requires Valid()
      modifies this, paths
      ensures Valid() && (View(), ok) == Add(old(View()))
    {
      if num >= DISK_MAX_IMAGES {
        return false;
      }
      ghost var before := paths[..num];
      paths[num] := "";
      num := num + 1;
      assert paths[..num] == before + [""];
      return true;
    }
  }
}
