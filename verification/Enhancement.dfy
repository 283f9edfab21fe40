/** Per-title option defaults and the enhancement profile (libretro.c): which value an option
  * read really returns, and the one run-time demotion of a database-sourced resolution. */
module Enhancement {
  import opened Common
  import opened OptionTable
  import Explanations

  const ENH_WATCH_WINDOW_FRAMES := 600
  const ENH_DEMOTE_UNDERRUN_FRAMES := 180

  /** The two options the profile governs, and any other. */
  datatype OptionKey = InternalResolution | TrueColor | Other(name: string)

  predicate Governed(k: OptionKey) { !k.Other? }

  datatype Preset = Preset(value: string, compatibility: bool)

  /** The title database as the resolver queries it: the row of the loaded title for a key, and
    * the values known to be bad for it. */
  datatype TitleDb = TitleDb(row: OptionKey -> Option<Preset>, bad: (OptionKey, string) -> bool)

  datatype Profile = Auto | Quality | Performance

  /** The frontend's answers: raw value of a key (None when it does not answer) and the
    * registered default. */
  datatype Frontend = Frontend(raw: OptionKey -> Option<string>, default: OptionKey -> Option<string>)

  datatype State = State(pertitle: bool, profile: Profile, demoted: bool, applied: bool, hiresFromDb: bool,
                         watchFrames: nat, underrunRun: nat, n: nat)

  // ---------------------------------------------------------------- one read

  predicate AtDefault(f: Frontend, k: OptionKey) {
    f.raw(k).None? || f.default(k) == f.raw(k)
  }

  /** enhancement_profile_suppressing; `slow` is a 32-bit ARM build. */
  predicate Suppressing(s: State, slow: bool) {
    match s.profile
    case Quality => false
    case Performance => true
    case Auto => slow || s.demoted
  }

  predicate Withheld(s: State, slow: bool, k: OptionKey, p: Preset) {
    Governed(k) && !p.compatibility && Suppressing(s, slow)
  }

  /** What get_variable_pertitle() returns, whether it armed the watch, and what it reports. */
  function Read(s: State, slow: bool, db: TitleDb, f: Frontend, k: OptionKey)
    : (Option<string>, bool, Explanations.Outcome)
  {
    var raw, row := f.raw(k), db.row(k);
    if !s.pertitle || row.None? then (raw, false, Explanations.Nothing)
    else if Withheld(s, slow, k, row.value) then
      (raw, false, if AtDefault(f, k) then Explanations.Dropped else Explanations.Nothing)
    else if !AtDefault(f, k) || db.bad(k, row.value.value) then (raw, false, Explanations.Nothing)
    else
      (Some(row.value.value), Governed(k) && !row.value.compatibility,
       if f.default(k) == Some(row.value.value) then Explanations.Nothing else Explanations.Applied)
  }

  /** A value the user set, anything but the registered default, is what every read returns, for
    * every database, profile and demotion state; and nothing is reported or armed for it. */
  lemma UserValueWins(s: State, slow: bool, db: TitleDb, f: Frontend, k: OptionKey)
    requires f.raw(k).Some? && f.default(k) != f.raw(k)
    ensures Read(s, slow, db, f, k) == (f.raw(k), false, Explanations.Nothing)
  {
  }

  /** A database value is substituted only at the default, and never one that is known bad for
    * the title or that the profile withholds; a substitution is reported exactly when it shows,
    * a withheld preset exactly when it would otherwise have been considered. */
  lemma SubstitutionIsSafe(s: State, slow: bool, db: TitleDb, f: Frontend, k: OptionKey)
    ensures var (v, armed, told) := Read(s, slow, db, f, k); var row := db.row(k);
      && (v != f.raw(k) || armed || told.Applied? ==>
            && s.pertitle && row.Some? && v == Some(row.value.value) && AtDefault(f, k)
            && !db.bad(k, row.value.value) && !Withheld(s, slow, k, row.value))
      && (told.Applied? <==> f.default(k) != v && s.pertitle && row.Some? && AtDefault(f, k)
                             && !db.bad(k, row.value.value) && !Withheld(s, slow, k, row.value))
      && (told.Dropped? <==> s.pertitle && row.Some? && AtDefault(f, k) && Withheld(s, slow, k, row.value))
      && (armed ==> !Suppressing(s, slow))
  {
  }

  /** And exactly when it is: with presets on, a row for the title, the option untouched, the value
    * not known bad, and the profile not in the way.  Such a read arms the watch if the option is
    * governed and the row is not there for compatibility, and is reported if it shows. */
  lemma SubstitutedExactly(s: State, slow: bool, db: TitleDb, f: Frontend, k: OptionKey)
    ensures var (v, armed, told) := Read(s, slow, db, f, k);
      var raw, row := f.raw(k), db.row(k);
      var untouched := raw == None || raw == f.default(k);
      var enhances := k in {InternalResolution, TrueColor} && row.Some? && !row.value.compatibility;
      var held := enhances && (s.profile == Performance || (s.profile == Auto && (slow || s.demoted)));
      var used := s.pertitle && row.Some? && untouched && !db.bad(k, row.value.value) && !held;
      && v == (if used then Some(row.value.value) else raw)
      && (armed <==> used && enhances)
      && told == (if used && f.default(k) != Some(row.value.value) then Explanations.Applied
                  else if s.pertitle && untouched && held then Explanations.Dropped
                  else Explanations.Nothing)
  {
  }

  // ---------------------------------------------------------------- one load

  /** The part of check_variables() that matters here: the two raw gates, then the reads of the
    * governed options. */
  function CheckVariables(s: State, slow: bool, db: TitleDb, f: Frontend, pertitle: bool, profile: Profile): State {
    var t := s.(pertitle := pertitle, profile := profile);
    t.(applied := t.applied || Read(t, slow, db, f, TrueColor).1 || Read(t, slow, db, f, InternalResolution).1)
  }

  /** retro_load_game up to the resolution latch; `memory` says whether the buffers of the higher
    * resolution could be allocated. */
  function Load(slow: bool, db: TitleDb, f: Frontend, pertitle: bool, profile: Profile, memory: bool): State {
    var s := State(pertitle, profile, false, false, false, 0, 0, 1);
    var (v, armed, _) := Read(s, slow, db, f, InternalResolution);
    var wanted := v == Some("2x");
    s.(applied := armed, n := if wanted && memory then 2 else 1,
       hiresFromDb := wanted && f.raw(InternalResolution) != Some("2x"))
  }

  /** An option pass takes the two gates first, and a preset then used for either governed option arms
    * the watch for the rest of the load. */
  lemma PassArms(s: State, slow: bool, db: TitleDb, f: Frontend, pertitle: bool, profile: Profile)
    ensures var t := CheckVariables(s, slow, db, f, pertitle, profile);
      && t == s.(pertitle := pertitle, profile := profile, applied := t.applied)
      && t.applied ==
           (s.applied
            || Read(s.(pertitle := pertitle, profile := profile), slow, db, f, InternalResolution).1
            || Read(s.(pertitle := pertitle, profile := profile), slow, db, f, TrueColor).1)
  {
  }

  /** The resolution a load latches: 2x if that is what the option read gives, substituted or not, and
    * there is memory for it; and it counts as the database's unless the option itself says 2x. */
  lemma LoadedResolution(slow: bool, db: TitleDb, f: Frontend, pertitle: bool, profile: Profile, memory: bool)
    ensures var s := Load(slow, db, f, pertitle, profile, memory);
      var v := Read(State(pertitle, profile, false, false, false, 0, 0, 1), slow, db, f, InternalResolution).0;
      && s.n == (if v == Some("2x") && memory then 2 else 1)
      && (s.hiresFromDb <==> v == Some("2x") && f.raw(InternalResolution) != Some("2x"))
      && s.pertitle == pertitle && s.profile == profile && !s.demoted && s.watchFrames == 0 && s.underrunRun == 0
  {
  }

  predicate WatchWanted(s: State, slow: bool) {
    !slow && s.profile.Auto? && !s.demoted && s.applied && s.watchFrames < ENH_WATCH_WINDOW_FRAMES
  }

  /** enhancement_auto_demote, up to the re-read it ends with. */
  function Demote(s: State): State {
    s.(demoted := true, n := if s.hiresFromDb && s.n > 1 then 1 else s.n)
  }

  /** The watch block of retro_run; `underrun` is the buffer report of a frontend that gives one. */
  function Frame(s: State, slow: bool, db: TitleDb, f: Frontend, underrun: bool): State {
    if s.watchFrames >= ENH_WATCH_WINDOW_FRAMES then s
    else
      var t := s.(watchFrames := s.watchFrames + 1);
      if !WatchWanted(t, slow) then t
      else if !underrun then t.(underrunRun := 0)
      else
        var u := t.(underrunRun := t.underrunRun + 1);
        if u.underrunRun >= ENH_DEMOTE_UNDERRUN_FRAMES then
          CheckVariables(Demote(u), slow, db, f, u.pertitle, u.profile)
        else u
  }

  datatype Event =
    | Options(f: Frontend, pertitle: bool, profile: Profile)
    | Tick(f: Frontend, underrun: bool)

  function Next(s: State, slow: bool, db: TitleDb, e: Event): State {
    match e
    case Options(f, pertitle, profile) => CheckVariables(s, slow, db, f, pertitle, profile)
    case Tick(f, underrun) => Frame(s, slow, db, f, underrun)
  }

  /** What is fixed for one load: the build, the title's database rows, the frontend and gates as
    * they were at load, and whether there was memory for 2x. */
  datatype Session = Session(slow: bool, db: TitleDb, f: Frontend, pertitle: bool, profile: Profile, memory: bool)

  function AtLoad(x: Session): State { Load(x.slow, x.db, x.f, x.pertitle, x.profile, x.memory) }

  function Exec(x: Session, run: seq<Event>): State {
    if run == [] then AtLoad(x) else Next(Exec(x, run[..|run|-1]), x.slow, x.db, run[|run|-1])
  }

  // ---------------------------------------------------------------- what the frames were

  function Frames(run: seq<Event>): nat {
    if run == [] then 0 else Frames(run[..|run|-1]) + if run[|run|-1].Tick? then 1 else 0
  }

  /** Whether the frame about to run is watched. */
  predicate WatchedNow(s: State, slow: bool) {
    s.watchFrames < ENH_WATCH_WINDOW_FRAMES && WatchWanted(s.(watchFrames := s.watchFrames + 1), slow)
  }

  /** The buffer reports of the watched frames of a run, in order; other frames leave no trace. */
  function WatchedReports(x: Session, run: seq<Event>): seq<bool> {
    if run == [] then []
    else
      var past, e := run[..|run|-1], run[|run|-1];
      var w := WatchedReports(x, past);
      if e.Tick? && WatchedNow(Exec(x, past), x.slow) then w + [e.underrun] else w
  }

  function TrailingUnderruns(w: seq<bool>): (n: nat)
    ensures n <= |w| && forall i :: |w| - n <= i < |w| ==> w[i]
  {
    if w == [] || !w[|w|-1] then 0 else 1 + TrailingUnderruns(w[..|w|-1])
  }

  /** One frame: the window counts up and saturates, the streak moves on watched frames only, and
    * the 180th underrun of a streak demotes. */
  lemma FrameEffect(s: State, slow: bool, db: TitleDb, f: Frontend, underrun: bool)
    ensures var t := Frame(s, slow, db, f, underrun); var watched := WatchedNow(s, slow);
      && t.watchFrames == (if s.watchFrames < ENH_WATCH_WINDOW_FRAMES then s.watchFrames + 1 else s.watchFrames)
      && t.underrunRun == (if !watched then s.underrunRun else if underrun then s.underrunRun + 1 else 0)
      && t.hiresFromDb == s.hiresFromDb
      && (t.demoted <==> s.demoted || (watched && underrun && s.underrunRun + 1 >= ENH_DEMOTE_UNDERRUN_FRAMES))
      && t.n == (if t.demoted && !s.demoted && s.hiresFromDb && s.n > 1 then 1 else s.n)
      && (watched ==> !s.demoted)
  {
  }

  /** What the run-time watch keeps. */
  ghost predicate Watch(x: Session, s: State, frames: nat, w: seq<bool>) {
    && s.watchFrames == (if frames < 600 then frames else 600)
    && s.underrunRun == TrailingUnderruns(w)
    && s.hiresFromDb == AtLoad(x).hiresFromDb
    && s.n == (if s.demoted && AtLoad(x).hiresFromDb then 1 else AtLoad(x).n)
    && (!s.demoted ==> s.underrunRun < 180)
  }

  lemma {:induction false} WatchInvariant(x: Session, run: seq<Event>)
    ensures Watch(x, Exec(x, run), Frames(run), WatchedReports(x, run))
  {
    if run != [] {
      var past, e := run[..|run|-1], run[|run|-1];
      WatchInvariant(x, past);
      if e.Tick? {
        var w := WatchedReports(x, past);
        FrameEffect(Exec(x, past), x.slow, x.db, e.f, e.underrun);
        assert (w + [e.underrun])[..|w|] == w;
      }
    }
  }

  /** The resolution over one load.  It drops only from 2x to 1x; only on a frame among the first
    * 599, the 180th of an unbroken streak of watched underrun frames; and only when the raw
    * option at load was not 2x. */
  lemma DropIsEarned(x: Session, run: seq<Event>, e: Event)
    requires Exec(x, run).n != Exec(x, run + [e]).n
    ensures Exec(x, run).n == 2 && Exec(x, run + [e]).n == 1 && e.Tick?
    ensures x.f.raw(InternalResolution) != Some("2x")
    ensures Frames(run + [e]) < 600
    ensures var w := WatchedReports(x, run + [e]);
      |w| >= 180 && forall i :: |w| - 180 <= i < |w| ==> w[i]
  {
    var more := run + [e];
    assert more[..|run|] == run;
    WatchInvariant(x, run);
    WatchInvariant(x, more);
    if e.Tick? {
      FrameEffect(Exec(x, run), x.slow, x.db, e.f, e.underrun);
    }
  }

  /** A preset of 2x that the database brings to this title, under the automatic profile. */
  ghost predicate BringsTwo(x: Session) {
    var k := InternalResolution;
    && !x.slow && x.pertitle && x.profile == Auto && x.memory
    && x.db.row(k) == Some(Preset("2x", false)) && !x.db.bad(k, "2x")
    && x.f.raw(k) != Some("2x") && (x.f.raw(k) == None || x.f.raw(k) == x.f.default(k))
  }

  ghost predicate AllUnderrun(run: seq<Event>) {
    forall e :: e in run ==> e.Tick? && e.underrun
  }

  /** The other direction: such a title starts at 2x, stays there for 179 frames in which the audio
    * buffer runs dry, and is at 1x from the 180th on. */
  lemma {:induction false} DropHappens(x: Session, run: seq<Event>)
    requires BringsTwo(x) && AllUnderrun(run) && |run| < 600
    ensures var s := Exec(x, run);
      && s.n == (if |run| < 180 then 2 else 1)
      && s.watchFrames == |run| && s.applied && s.pertitle && s.profile == Auto && s.hiresFromDb
      && (s.demoted <==> |run| >= 180) && (|run| < 180 ==> s.underrunRun == |run|)
  {
    if run == [] {
      SubstitutedExactly(State(true, Auto, false, false, false, 0, 0, 1), false, x.db, x.f, InternalResolution);
    } else {
      var past, e := run[..|run|-1], run[|run|-1];
      assert e in run && forall p :: p in past ==> p in run;
      DropHappens(x, past);
    }
  }

  /** At most once: having dropped, the resolution never changes again in that load. */
  lemma DropIsFinal(x: Session, run: seq<Event>, e: Event, later: seq<Event>)
    requires Exec(x, run).n != Exec(x, run + [e]).n
    ensures Exec(x, run + [e] + later).n == 1
  {
    WatchInvariant(x, run);
    WatchInvariant(x, run + [e]);
    DemotionStays(x, run + [e], later);
    WatchInvariant(x, run + [e] + later);
  }

  lemma {:induction false} DemotionStays(x: Session, run: seq<Event>, later: seq<Event>)
    requires Exec(x, run).demoted
    ensures Exec(x, run + later).demoted
    decreases |later|
  {
    if later == [] {
      assert run + later == run;
    } else {
      DemotionStays(x, run, later[..|later|-1]);
      assert (run + later)[..|run + later| - 1] == run + later[..|later|-1];
    }
  }

  /** A resolution the user chose is out of the watch's reach: if the raw option at load was 2x,
    * the session stays at 2x, or at the 1x it began with for want of memory, whatever happens. */
  lemma UserResolutionStays(x: Session, run: seq<Event>)
    requires x.f.raw(InternalResolution) == Some("2x") && x.f.default(InternalResolution) != Some("2x")
    ensures Exec(x, run).n == if x.memory then 2 else 1
  {
    WatchInvariant(x, run);
    UserValueWins(State(x.pertitle, x.profile, false, false, false, 0, 0, 1), x.slow, x.db, x.f, InternalResolution);
  }

  /** After a demotion the profile withholds every enhancement preset for the rest of the load,
    * unless the player asks for quality. */
  lemma DemotedPresetsStayOut(x: Session, run: seq<Event>, later: seq<Event>, g: Frontend, k: OptionKey)
    requires Exec(x, run).demoted && !Exec(x, run + later).profile.Quality?
    requires Governed(k) && (x.db.row(k).Some? ==> !x.db.row(k).value.compatibility)
    ensures Read(Exec(x, run + later), x.slow, x.db, g, k).0 == g.raw(k)
  {
    DemotionStays(x, run, later);
  }

  // ---------------------------------------------------------------- the statics

  class Resolver {
    const slow: bool
    const db: TitleDb
    var pertitle: bool
    var profile: Profile
    var demoted: bool
    var applied: bool
    var hiresFromDb: bool
    var watchFrames: nat
    var underrunRun: nat
    var n: nat

    ghost function View(): State
      reads this
    {
      State(pertitle, profile, demoted, applied, hiresFromDb, watchFrames, underrunRun, n)
    }

    /** get_variable_pertitle. */
    method GetVariable(f: Frontend, k: OptionKey) returns (value: Option<string>, told: Explanations.Outcome)
      modifies this`applied
      ensures var (v, armed, t) := Read(old(View()), slow, db, f, k);
        value == v && told == t && View() == old(View()).(applied := old(applied) || armed)
    {
      value, told := f.raw(k), Explanations.Nothing;
      if !pertitle {
        return;
      }
      var row := db.row(k);
      var atDefault := value.None? || f.default(k) == value;
      if row.Some? && Governed(k) && !row.value.compatibility {
        var suppress := profile.Performance? || (profile.Auto? && (slow || demoted));
        if suppress {
          if atDefault {
            told := Explanations.Dropped;
          }
          row := None;
        }
      }
      if row.Some? && atDefault {
        if db.bad(k, row.value.value) {
          return;
        }
        value := Some(row.value.value);
        told := if f.default(k) == value then Explanations.Nothing else Explanations.Applied;
        if Governed(k) && !row.value.compatibility {
          applied := true;
        }
      }
    }

    /** The gates and the governed reads of check_variables. */
    method ReadVariables(f: Frontend, pertitle: bool, profile: Profile)
      modifies this`pertitle, this`profile, this`applied
      ensures View() == CheckVariables(old(View()), slow, db, f, pertitle, profile)
    {
      this.pertitle, this.profile := pertitle, profile;
      var _, _ := GetVariable(f, TrueColor);
      var _, _ := GetVariable(f, InternalResolution);
    }

    /** retro_load_game up to the resolution latch. */
    constructor (slow: bool, db: TitleDb, f: Frontend, pertitle: bool, profile: Profile, memory: bool)
      ensures this.slow == slow && this.db == db && View() == Load(slow, db, f, pertitle, profile, memory)
    {
      this.slow, this.db, this.pertitle, this.profile := slow, db, pertitle, profile;
      demoted, applied, hiresFromDb, watchFrames, underrunRun, n := false, false, false, 0, 0, 1;
      new;
      var v, _ := GetVariable(f, InternalResolution);
      if v == Some("2x") {
        n := if memory then 2 else 1;
        hiresFromDb := f.raw(InternalResolution) != Some("2x");
      }
    }

    /** The watch block of retro_run. */
    method WatchFrame(f: Frontend, underrun: bool)
      modifies this
      ensures View() == Frame(old(View()), slow, db, f, underrun)
    {
      if watchFrames < ENH_WATCH_WINDOW_FRAMES {
        watchFrames := watchFrames + 1;
        if !slow && profile.Auto? && !demoted && applied && watchFrames < ENH_WATCH_WINDOW_FRAMES {
          if underrun {
            underrunRun := underrunRun + 1;
            if underrunRun >= ENH_DEMOTE_UNDERRUN_FRAMES {
              demoted := true;
              if hiresFromDb && n > 1 {
                n := 1;
              }
              ReadVariables(f, pertitle, profile);
            }
          } else {
            underrunRun := 0;
          }
        }
      }
    }
  }
}
