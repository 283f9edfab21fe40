/** What is plugged into the two controller ports (libretro.c; acceptance and clamps from
  * src/jerry/inputdev.c and src/jerry/axistune.c).
  *
  * A port's device comes from the frontend's claim while it makes one and from the core option
  * otherwise, and the sensitivity and per-axis tuning follow the device. */
module PortDevices {
  import opened Common

  datatype Device = Pad | MouseSt | MouseAmigaAdapter | MouseAmigaOnSt | Rotary | AnalogStick
                  | Driving | Lightgun | Paddle | SixD

  predicate IsMouse(t: Device) { t.MouseSt? || t.MouseAmigaAdapter? || t.MouseAmigaOnSt? }

  predicate IsAbsStick(t: Device) { t.AnalogStick? || t.Driving? || t.Paddle? || t.SixD? }

  /** InputDevSetType: a mouse goes to port 2 only, the light gun to port 1 only. */
  function Accepted(port: nat, t: Device): Device {
    if IsMouse(t) && port != 1 then Pad
    else if t.Lightgun? && port != 0 then Pad
    else t
  }

  // ---------------------------------------------------------------- tuning

  datatype Tune = Tune(deadzone: int, offset: int, exponentQ8: int)

  const AXISTUNE_REF := 64

  function Clamp(x: int, lo: int, hi: int): int { if x < lo then lo else if x > hi then hi else x }

  /** AxisTuneSet. */
  function Stored(t: Tune): Tune {
    Tune(Clamp(t.deadzone, 0, AXISTUNE_REF), Clamp(t.offset, -AXISTUNE_REF, AXISTUNE_REF),
         if t.exponentQ8 <= 0 then 256 else if t.exponentQ8 > 2048 then 2048 else t.exponentQ8)
  }

  const IDENTITY := Tune(0, 0, 256)

  /** The option-derived ladders, one per kind of device. */
  datatype Ladders = Ladders(mouseScale: int, mouseX: Tune, mouseY: Tune,
                             rotaryScale: int, rotary: Tune, analogX: Tune, analogY: Tune)

  const UNTUNED := Ladders(256, IDENTITY, IDENTITY, 256, IDENTITY, IDENTITY, IDENTITY)

  datatype Setting = Setting(scale: int, x: Tune, y: Tune)

  /** The setting that belongs to a device. */
  function SettingFor(l: Ladders, t: Device): Setting {
    if IsAbsStick(t) then Setting(256, Stored(l.analogX), Stored(l.analogY))
    else if t.Rotary? then Setting(Clamp(l.rotaryScale, 1, 4096), Stored(l.rotary), Stored(l.rotary))
    else Setting(Clamp(l.mouseScale, 1, 4096), Stored(l.mouseX), Stored(l.mouseY))
  }

  /** What the tuning module takes as it is. */
  predicate InRange(t: Tune) {
    0 <= t.deadzone <= 64 && -64 <= t.offset <= 64 && 1 <= t.exponentQ8 <= 2048
  }

  /** Whose ladder a device gets, axis by axis: a stick the analog pair and no scale, a rotary its one
    * curve on both axes, everything else the mouse pair.  Ladders in range are taken as they
    * are; the tuning in force is always in range. */
  lemma SettingMeans(l: Ladders, t: Device)
    ensures var s := SettingFor(l, t);
      && InRange(s.x) && InRange(s.y) && 1 <= s.scale <= 4096
      && (t in {AnalogStick, Driving, Paddle, SixD} ==>
            && s.scale == 256
            && (InRange(l.analogX) ==> s.x == l.analogX) && (InRange(l.analogY) ==> s.y == l.analogY))
      && (t == Rotary ==>
            && (1 <= l.rotaryScale <= 4096 ==> s.scale == l.rotaryScale)
            && s.x == s.y && (InRange(l.rotary) ==> s.x == l.rotary))
      && (t in {Pad, MouseSt, MouseAmigaAdapter, MouseAmigaOnSt, Lightgun} ==>
            && (1 <= l.mouseScale <= 4096 ==> s.scale == l.mouseScale)
            && (InRange(l.mouseX) ==> s.x == l.mouseX) && (InRange(l.mouseY) ==> s.y == l.mouseY))
  {
  }

  /** Out of range, the nearest value, except that an exponent of zero or less is the identity. */
  lemma StoredMeans(t: Tune)
    ensures var r := Stored(t);
      && InRange(r) && (InRange(t) ==> r == t)
      && (t.deadzone < 0 ==> r.deadzone == 0) && (t.deadzone > 64 ==> r.deadzone == 64)
      && (t.offset < -64 ==> r.offset == -64) && (t.offset > 64 ==> r.offset == 64)
      && (t.exponentQ8 <= 0 ==> r.exponentQ8 == 256) && (t.exponentQ8 > 2048 ==> r.exponentQ8 == 2048)
  {
  }

  // ---------------------------------------------------------------- wishes

  /** A device and whether a Team Tap is asked for. */
  datatype Wish = Wish(device: Device, tap: bool)

  /** The device numbers of retro_set_controller_port_device. */
  datatype Requested = TeamTap | PlainMouse | JagMouseSt | JagMouseAmiga | JagMouseAmigaAdapter | JagRotary
                     | JagAnalog | JagDriving | JagPaddle | Jag6D | JagLightgun | OtherDevice

  function WishOf(d: Requested): Wish {
    match d
    case TeamTap => Wish(Pad, true)
    case PlainMouse | JagMouseSt => Wish(MouseSt, false)
    case JagMouseAmiga => Wish(MouseAmigaOnSt, false)
    case JagMouseAmigaAdapter => Wish(MouseAmigaAdapter, false)
    case JagRotary => Wish(Rotary, false)
    case JagAnalog => Wish(AnalogStick, false)
    case JagDriving => Wish(Driving, false)
    case JagPaddle => Wish(Paddle, false)
    case Jag6D => Wish(SixD, false)
    case JagLightgun => Wish(Lightgun, false)
    case OtherDevice => Wish(Pad, false)
  }

  /** The values of the two port options; a port ignores those it does not offer. */
  datatype Choice = ChooseAuto | ChoosePad | ChooseProPad | ChooseTeamTap | ChooseRotary | ChooseAnalog
                  | ChooseDriving | ChoosePaddle | Choose6D | ChooseLightgun
                  | ChooseMouseSt | ChooseMouseAmiga | ChooseMouseAmigaAdapter

  /** p1_device_from_option and p2_device_from_option. */
  function OptionWish(port: nat, v: Choice): Wish {
    match v
    case ChooseTeamTap => Wish(Pad, true)
    case ChooseRotary => Wish(Rotary, false)
    case ChooseAnalog => Wish(AnalogStick, false)
    case ChooseDriving => Wish(Driving, false)
    case ChoosePaddle => Wish(Paddle, false)
    case Choose6D => Wish(SixD, false)
    case ChooseLightgun => Wish(if port == 0 then Lightgun else Pad, false)
    case ChooseMouseSt => Wish(if port == 1 then MouseSt else Pad, false)
    case ChooseMouseAmiga => Wish(if port == 1 then MouseAmigaOnSt else Pad, false)
    case ChooseMouseAmigaAdapter => Wish(if port == 1 then MouseAmigaAdapter else Pad, false)
    case ChooseAuto | ChoosePad | ChooseProPad => Wish(Pad, false)
  }

  /** The device a claim and an option value name alike, and whether they ask for a Team Tap. */
  lemma ClaimsMatchOptions(port: nat)
    ensures WishOf(TeamTap) == OptionWish(port, ChooseTeamTap) == Wish(Pad, true)
    ensures WishOf(JagRotary) == OptionWish(port, ChooseRotary) == Wish(Rotary, false)
    ensures WishOf(JagAnalog) == OptionWish(port, ChooseAnalog) == Wish(AnalogStick, false)
    ensures WishOf(JagDriving) == OptionWish(port, ChooseDriving) == Wish(Driving, false)
    ensures WishOf(JagPaddle) == OptionWish(port, ChoosePaddle) == Wish(Paddle, false)
    ensures WishOf(Jag6D) == OptionWish(port, Choose6D) == Wish(SixD, false)
    ensures WishOf(JagLightgun) == OptionWish(0, ChooseLightgun) == Wish(Lightgun, false)
    ensures WishOf(PlainMouse) == WishOf(JagMouseSt) == OptionWish(1, ChooseMouseSt) == Wish(MouseSt, false)
    ensures WishOf(JagMouseAmiga) == OptionWish(1, ChooseMouseAmiga) == Wish(MouseAmigaOnSt, false)
    ensures WishOf(JagMouseAmigaAdapter) == OptionWish(1, ChooseMouseAmigaAdapter) == Wish(MouseAmigaAdapter, false)
    ensures forall v :: v in {ChooseAuto, ChoosePad, ChooseProPad} ==> OptionWish(port, v) == WishOf(OtherDevice)
    ensures WishOf(OtherDevice) == OptionWish(1, ChooseLightgun) == OptionWish(0, ChooseMouseSt) == Wish(Pad, false)
    ensures forall d: Requested :: Claims(WishOf(d)) <==> d != OtherDevice
    ensures OptionWish(0, ChooseMouseAmiga) == OptionWish(0, ChooseMouseAmigaAdapter) == Wish(Pad, false)
  {
  }

  /** Port 1 takes no mouse and port 2 no light gun; everything else is plugged in as asked. */
  lemma AcceptedMeans(t: Device)
    ensures Accepted(0, t) == if t in {MouseSt, MouseAmigaAdapter, MouseAmigaOnSt} then Pad else t
    ensures Accepted(1, t) == if t == Lightgun then Pad else t
  {
  }

  predicate Claims(w: Wish) { !w.device.Pad? || w.tap }

  // ---------------------------------------------------------------- state

  /** `device` is the input-device module's, `tap` the joystick module's; `lastOption` records
    * the option as last read for this port. */
  datatype Port = Port(claim: Wish, forced: bool, active: Device, tapActive: bool,
                       device: Device, tap: bool, setting: Setting, lastOption: Wish)

  datatype State = State(port1: Port, port2: Port, ladders: Ladders)

  function PortAt(s: State, port: nat): Port { if port == 0 then s.port1 else s.port2 }

  function WithPort(s: State, port: nat, p: Port): State {
    if port == 0 then s.(port1 := p) else s.(port2 := p)
  }

  /** apply_port_device. */
  function ApplyDevice(p: Port, port: nat, w: Wish, l: Ladders): Port {
    var kind := Accepted(port, w.device);
    var tap := w.tap && kind.Pad?;
    var q := p.(device := kind, tap := tap, tapActive := tap);
    if kind != p.active then q.(active := kind, setting := SettingFor(l, kind)) else q
  }

  /** retro_set_controller_port_device; `v` is what reading the port's option gives now. */
  function Claim(s: State, port: nat, d: Requested, v: Choice): State {
    if port > 1 then s
    else
      var w := WishOf(d);
      var p := PortAt(s, port).(claim := w, forced := Claims(w));
      if p.forced then WithPort(s, port, ApplyDevice(p, port, w, s.ladders))
      else
        var o := OptionWish(port, v);
        WithPort(s, port, ApplyDevice(p.(lastOption := o), port, o, s.ladders))
  }

  function ReadOption(p: Port, port: nat, v: Choice, l: Ladders): Port {
    var o := OptionWish(port, v);
    ApplyDevice(p.(lastOption := o), port, if p.forced then p.claim else o, l)
  }

  /** The port part of check_variables: devices first, with the old ladders; then the ladders are
    * read and both ports retuned. */
  function CheckVariables(s: State, v1: Choice, v2: Choice, l: Ladders): State {
    var a, b := ReadOption(s.port1, 0, v1, s.ladders), ReadOption(s.port2, 1, v2, s.ladders);
    State(a.(setting := SettingFor(l, a.device)), b.(setting := SettingFor(l, b.device)), l)
  }

  function Empty(): Port {
    Port(Wish(Pad, false), false, Pad, false, Pad, false, Setting(256, IDENTITY, IDENTITY), Wish(Pad, false))
  }

  datatype Event =
    | SetPortDevice(port: nat, d: Requested, option: Choice)
    | Options(v1: Choice, v2: Choice, l: Ladders)
    | Deinit

  function Next(s: State, e: Event): State {
    match e
    case SetPortDevice(port, d, v) => Claim(s, port, d, v)
    case Options(v1, v2, l) => CheckVariables(s, v1, v2, l)
    case Deinit => State(Empty(), Empty(), UNTUNED)
  }

  function Exec(run: seq<Event>): State {
    if run == [] then State(Empty(), Empty(), UNTUNED) else Next(Exec(run[..|run|-1]), run[|run|-1])
  }

  // ---------------------------------------------------------------- histories

  /** The last claim a port received in a run, None since start-up or deinit. */
  function LastClaim(run: seq<Event>, port: nat): Option<Requested> {
    if run == [] then None
    else match run[|run|-1]
      case Deinit => None
      case SetPortDevice(p, d, _) => if p == port then Some(d) else LastClaim(run[..|run|-1], port)
      case Options(_, _, _) => LastClaim(run[..|run|-1], port)
  }

  /** The last value its option was read at: by an option pass, or when a claim was released. */
  function LastRead(run: seq<Event>, port: nat): Choice {
    if run == [] then ChooseAuto
    else match run[|run|-1]
      case Deinit => ChooseAuto
      case SetPortDevice(p, d, v) =>
        if p == port && !Claims(WishOf(d)) then v else LastRead(run[..|run|-1], port)
      case Options(v1, v2, _) => if port == 0 then v1 else v2
  }

  function LastLadders(run: seq<Event>): Ladders {
    if run == [] then UNTUNED
    else match run[|run|-1]
      case Deinit => UNTUNED
      case Options(_, _, l) => l
      case SetPortDevice(_, _, _) => LastLadders(run[..|run|-1])
  }

  /** The claim while there is one, else the option. */
  function Wanted(run: seq<Event>, port: nat): Wish {
    var c := LastClaim(run, port);
    if c.Some? && Claims(WishOf(c.value)) then WishOf(c.value) else OptionWish(port, LastRead(run, port))
  }

  /** The bookkeeping behind the theorem: what a port remembers is what its history says. */
  ghost predicate Remembers(p: Port, run: seq<Event>, port: nat) {
    var c := LastClaim(run, port);
    && p.claim == (if c.Some? then WishOf(c.value) else Wish(Pad, false))
    && p.forced == Claims(p.claim)
    && p.lastOption == OptionWish(port, LastRead(run, port))
    && p.active == p.device && p.tapActive == p.tap
  }

  /** The theorem, for one port. */
  ghost predicate InForce(p: Port, run: seq<Event>, port: nat) {
    var w := Wanted(run, port);
    && p.device == Accepted(port, w.device)
    && p.tap == (w.tap && Accepted(port, w.device).Pad?)
    && p.setting == SettingFor(LastLadders(run), p.device)
  }

  /** Over any interleaving of claims, releases, option reads and sessions: each port's device
    * is a function of its last claim and last-read option; a Team Tap and a non-pad device never
    * share a port; and the scale and both axis tunings in force are those the current ladders
    * give the device actually in the port. */
  lemma {:induction false} DevicesFollowHistory(run: seq<Event>, port: nat)
    requires port < 2
    ensures InForce(PortAt(Exec(run), port), run, port) && Exec(run).ladders == LastLadders(run)
    ensures Remembers(PortAt(Exec(run), port), run, port)
    ensures PortAt(Exec(run), port).tap ==> PortAt(Exec(run), port).device.Pad?
  {
    if run != [] {
      var past, e := run[..|run|-1], run[|run|-1];
      DevicesFollowHistory(past, port);
      var s := Exec(past);
      match e
      case Deinit =>
      case Options(v1, v2, l) =>
        ApplyInForce(PortAt(s, port).(lastOption := OptionWish(port, if port == 0 then v1 else v2)), port,
                     Wanted(run, port), s.ladders);
      case SetPortDevice(p, d, v) =>
        if p == port {
          ApplyInForce(PortAt(s, port).(claim := WishOf(d), forced := Claims(WishOf(d)),
                                        lastOption := OptionWish(port, LastRead(run, port))), port,
                       Wanted(run, port), s.ladders);
        }
    }
  }

  /** Plugging a wish into a port whose tuning was in force leaves it in force. */
  lemma ApplyInForce(p: Port, port: nat, w: Wish, l: Ladders)
    requires p.active == p.device && p.tapActive == p.tap && p.setting == SettingFor(l, p.device)
    ensures var q := ApplyDevice(p, port, w, l);
      && q.device == Accepted(port, w.device) && q.tap == (w.tap && q.device.Pad?)
      && q.active == q.device && q.tapActive == q.tap && q.setting == SettingFor(l, q.device)
      && q.claim == p.claim && q.forced == p.forced && q.lastOption == p.lastOption
  {
  }

  /** Before any of it, and after deinit: pads, untuned. */
  lemma StartsUntuned(run: seq<Event>, port: nat)
    requires port < 2 && (run == [] || run[|run|-1].Deinit?)
    ensures var p := PortAt(Exec(run), port);
      && p.device == Pad && !p.tap && !p.forced
      && p.setting == Setting(256, Tune(0, 0, 256), Tune(0, 0, 256))
      && SettingFor(Exec(run).ladders, Rotary) == SettingFor(Exec(run).ladders, AnalogStick) == p.setting
  {
  }

  /** A frontend's routine release right after load changes nothing: releasing a port that is not
    * claimed keeps its device and tuning if the option still reads the same. */
  lemma ReleaseKeepsOption(run: seq<Event>, port: nat, d: Requested)
    requires port < 2 && !Claims(WishOf(d))
    requires LastClaim(run, port).Some? ==> !Claims(WishOf(LastClaim(run, port).value))
    ensures var before, after := PortAt(Exec(run), port),
                                 PortAt(Exec(run + [SetPortDevice(port, d, LastRead(run, port))]), port);
      after.device == before.device && after.tap == before.tap && after.setting == before.setting
  {
    var more := run + [SetPortDevice(port, d, LastRead(run, port))];
    assert more[..|run|] == run;
    DevicesFollowHistory(run, port);
    DevicesFollowHistory(more, port);
  }

  // ---------------------------------------------------------------- the statics

  /** The parallel two-element statics of libretro.c, one record per port. */
  class Ports {
    const ports: array<Port>
    var ladders: Ladders

    ghost predicate Valid()
      reads this
    {
      ports.Length == 2
    }

    ghost function View(): State
      requires Valid()
      reads this, ports
    {
      State(ports[0], ports[1], ladders)
    }

    constructor ()
      ensures Valid() && View() == Exec([]) && fresh(ports)
    {
      ports := new Port[2](_ => Empty());
      ladders := UNTUNED;
    }

    /** apply_port_tuning. */
    method ApplyTuning(i: nat)
      requires Valid() && i < 2
      modifies ports
      ensures ports[i] == old(ports[i]).(setting := SettingFor(ladders, old(ports[i]).device))
      ensures ports[1 - i] == old(ports[1 - i])
    {
      var kind := ports[i].device;
      var s;
      if IsAbsStick(kind) {
        s := Setting(256, Stored(ladders.analogX), Stored(ladders.analogY));
      } else if kind.Rotary? {
        s := Setting(Clamp(ladders.rotaryScale, 1, 4096), Stored(ladders.rotary), Stored(ladders.rotary));
      } else {
        s := Setting(Clamp(ladders.mouseScale, 1, 4096), Stored(ladders.mouseX), Stored(ladders.mouseY));
      }
      ports[i] := ports[i].(setting := s);
    }

    /** apply_port_device. */
    method ApplyPortDevice(i: nat, w: Wish)
      requires Valid() && i < 2
      modifies ports
      ensures ports[i] == ApplyDevice(old(ports[i]), i, w, ladders)
      ensures ports[1 - i] == old(ports[1 - i])
    {
      var kind := Accepted(i, w.device);
      var teamtap := w.tap;
      if !kind.Pad? {
        teamtap := false;
      }
      ports[i] := ports[i].(device := kind, tap := teamtap);
      if teamtap != ports[i].tapActive {
        ports[i] := ports[i].(tapActive := teamtap);
      }
      if kind != ports[i].active {
        ports[i] := ports[i].(active := kind);
        ApplyTuning(i);
      }
    }

    /** retro_set_controller_port_device. */
    method SetControllerPortDevice(port: nat, d: Requested, option: Choice)
      requires Valid()
      modifies ports
      ensures View() == Claim(old(View()), port, d, option)
    {
      if port > 1 {
        return;
      }
      var w := WishOf(d);
      ports[port] := ports[port].(claim := w, forced := Claims(w));
      if !ports[port].forced {
        w := OptionWish(port, option);
        ports[port] := ports[port].(lastOption := w);
      }
      ApplyPortDevice(port, w);
    }

    /** One port's option, overruled by its claim. */
    method ReadPort(i: nat, v: Choice)
      requires Valid() && i < 2
      modifies ports
      ensures ports[i] == ReadOption(old(ports[i]), i, v, ladders)
      ensures ports[1 - i] == old(ports[1 - i])
    {
      ports[i] := ports[i].(lastOption := OptionWish(i, v));
      ApplyPortDevice(i, if ports[i].forced then ports[i].claim else ports[i].lastOption);
    }

    /** The port part of check_variables: port 2, then port 1, then the ladders. */
    method ReadOptions(v1: Choice, v2: Choice, l: Ladders)
      requires Valid()
      modifies this`ladders, ports
      ensures View() == CheckVariables(old(View()), v1, v2, l)
    {
      ReadPort(1, v2);
      ReadPort(0, v1);
      ladders := l;
      ApplyTuning(0);
      ApplyTuning(1);
    }
  }
}
