/** Publishing options to the frontend as an incrementally maintained view (libretro.c).
  *
  * The frontend holds option definitions and which rows are visible.  The core never looks at
  * either: it keeps them right by sending changes only, against cached flags, a one-shot force
  * latch, the amendment set last sent, and a host list spliced into the table in place.
  */
module OptionPublishing {
  import opened Common
  import opened OptionTable
  import opened Explanations
  import HostPicker
  import Ports = PortDevices

  // ---------------------------------------------------------------- visibility groups

  /** The groups of rows shown and hidden together, in the order they are visited. */
  datatype Group = Inputs | CdOnly | CartOnly | Mouse | Rotary | Analog | TexDump16 | TexReplace
                 | NetHost | NetPort | Voice

  const GROUPS: nat := 11

  function GroupAt(k: nat): Group {
    match k
    case 0 => Inputs case 1 => CdOnly case 2 => CartOnly case 3 => Mouse case 4 => Rotary
    case 5 => Analog case 6 => TexDump16 case 7 => TexReplace case 8 => NetHost case 9 => NetPort
    case _ => Voice
  }

  function PlaceOfGroup(g: Group): (k: nat)
    ensures k < GROUPS && GroupAt(k) == g
  {
    match g
    case Inputs => 0 case CdOnly => 1 case CartOnly => 2 case Mouse => 3 case Rotary => 4
    case Analog => 5 case TexDump16 => 6 case TexReplace => 7 case NetHost => 8 case NetPort => 9
    case Voice => 10
  }

  /** Rows are named by their group and position in the group's own key array. */
  datatype Key = Key(group: Group, n: nat)

  /** Two ports of a numpad row and 24 RetroPad rows; then the literal key arrays. */
  function Rows(g: Group): nat {
    match g
    case Inputs => 50 case CdOnly => 5 case CartOnly => 6 case Mouse => 7 case Rotary => 5
    case Analog => 6 case TexDump16 => 1 case TexReplace => 1 case NetHost => 1 case NetPort => 1
    case Voice => 5
  }

  /** The option keys of the groups with literal key lists, without their common prefix. */
  function KeyNames(g: Group): seq<string>
    requires !g.Inputs?
  {
    match g
    case CdOnly => ["cd_bios_type", "cd_boot_mode", "cd_read_speed", "cd_trace", "memory_track"]
    case CartOnly => ["bios", "bios_type", "jgd", "jgd_sd", "enhancement_hooks", "blit_memo"]
    case Mouse => ["mouse_sensitivity", "mouse_deadzone_x", "mouse_deadzone_y", "mouse_offset_x", "mouse_offset_y",
                   "mouse_exponent_x", "mouse_exponent_y"]
    case Rotary => ["rotary_sensitivity", "rotary_id", "rotary_deadzone", "rotary_offset", "rotary_exponent"]
    case Analog => ["analog_deadzone_x", "analog_deadzone_y", "analog_offset_x", "analog_offset_y",
                    "analog_exponent_x", "analog_exponent_y"]
    case TexDump16 => ["texdump_16bpp"]
    case TexReplace => ["texture_replace"]
    case NetHost => ["netlink_host"]
    case NetPort => ["netlink_port"]
    case Voice => ["voice_chat_gate", "voice_chat_ptt_key", "voice_chat_volume", "voice_chat_vad", "voice_chat_monitor"]
  }

  /** A row for each key; the input keys are made up, port by port: a keypad and 24 buttons. */
  lemma RowsAreKeys(g: Group)
    ensures Rows(g) == if g.Inputs? then 2 * (1 + 24) else |KeyNames(g)|
    ensures HOST_KEY == "virtualjaguar_" + KeyNames(NetHost)[0]
  {
  }

  /** Everything update_option_visibility() reads. */
  datatype Env = Env(altInputs: Option<string>, contentLoaded: bool, cdMode: bool,
                     port1: Ports.Device, port2: Ports.Device,
                     textureDump: Option<string>, packAvailable: bool,
                     netlink: Option<string>, netpacketLive: bool, voiceChat: Option<string>)

  datatype LinkMode = Disabled | Loopback | TcpServer | TcpClient | Netpacket

  function ResolveMode(v: Option<string>, netpacketLive: bool): LinkMode {
    if v == Some("loopback") then Loopback
    else if v == Some("tcp_server") then TcpServer
    else if v == Some("tcp_client") then TcpClient
    else if v == Some("auto") && netpacketLive then Netpacket
    else Disabled
  }

  /** The group predicate: should these rows be visible now? */
  predicate Shown(g: Group, e: Env) {
    match g
    case Inputs => e.altInputs != Some("disabled")
    case CdOnly => !e.contentLoaded || e.cdMode
    case CartOnly => !e.contentLoaded || !e.cdMode
    case Mouse => Ports.IsMouse(e.port2)
    case Rotary => e.port1.Rotary? || e.port2.Rotary?
    case Analog => Ports.IsAbsStick(e.port1) || Ports.IsAbsStick(e.port2)
    case TexDump16 => e.textureDump == Some("enabled")
    case TexReplace => e.packAvailable
    case NetHost => ResolveMode(e.netlink, e.netpacketLive).TcpClient?
    case NetPort => ResolveMode(e.netlink, e.netpacketLive).TcpClient?
                    || ResolveMode(e.netlink, e.netpacketLive).TcpServer?
    case Voice => e.voiceChat == Some("enabled")
  }

  /** What each group waits for, in the words of the option texts. */
  lemma WhatIsShown(e: Env)
    ensures Shown(Inputs, e) <==> e.altInputs != Some("disabled")
    ensures !e.contentLoaded ==> Shown(CdOnly, e) && Shown(CartOnly, e)
    ensures e.contentLoaded ==> (Shown(CdOnly, e) <==> e.cdMode) && (Shown(CartOnly, e) <==> !e.cdMode)
    ensures Shown(Mouse, e) <==> e.port2 in {Ports.MouseSt, Ports.MouseAmigaAdapter, Ports.MouseAmigaOnSt}
    ensures Shown(Rotary, e) <==> Ports.Device.Rotary in {e.port1, e.port2}
    ensures Shown(Analog, e) <==>
      || e.port1 in {Ports.AnalogStick, Ports.Driving, Ports.Device.Paddle, Ports.SixD}
      || e.port2 in {Ports.AnalogStick, Ports.Driving, Ports.Device.Paddle, Ports.SixD}
    ensures Shown(TexDump16, e) <==> e.textureDump == Some("enabled")
    ensures Shown(TexReplace, e) <==> e.packAvailable
    ensures Shown(NetHost, e) <==> e.netlink == Some("tcp_client")
    ensures Shown(NetPort, e) <==> e.netlink in {Some("tcp_client"), Some("tcp_server")}
    ensures Shown(Voice, e) <==> e.voiceChat == Some("enabled")
  {
  }

  // ---------------------------------------------------------------- frontend and core

  /** `v2`: takes version 2 definitions; `display`: implements row visibility; `calls` counts
    * the visibility calls it was ever sent. */
  datatype Frontend = Frontend(v2: bool, display: bool, hidden: set<Key>, defs: seq<Def>, calls: nat)

  datatype Answer = Unasked | Refused | Supported

  datatype State = State(front: Frontend, answer: Answer, show: map<Group, bool>, force: bool,
                         base: seq<Def>, presets: seq<Value>, presetsValid: bool,
                         cur: seq<Amendment>, pushed: bool)

  predicate Flags(s: State) { forall g: Group :: g in s.show }

  /** option_display_push. */
  function PushRow(s: State, k: Key, visible: bool): State {
    if s.answer.Refused? then s
    else
      var f := s.front.(calls := s.front.calls + 1);
      if !f.display then s.(front := f, answer := Refused)
      else s.(front := f.(hidden := if visible then f.hidden - {k} else f.hidden + {k}), answer := Supported)
  }

  function PushRows(s: State, g: Group, visible: bool, n: nat): State {
    if n == 0 then s else PushRow(PushRows(s, g, visible, n - 1), Key(g, n - 1), visible)
  }

  /** One group of update_option_visibility: the flag follows its predicate, and the rows are
    * sent when it changed or when forced. */
  function UpdateGroup(s: State, g: Group, e: Env, force: bool): State
    requires g in s.show
  {
    var t := s.(show := s.show[g := Shown(g, e)]);
    if force || Shown(g, e) != s.show[g] then PushRows(t, g, Shown(g, e), Rows(g)) else t
  }

  function UpdateGroups(s: State, e: Env, force: bool, n: nat): (t: State)
    requires Flags(s)
    ensures Flags(t)
  {
    if n == 0 then s
    else
      var p := UpdateGroups(s, e, force, n - 1);
      PushRowsKeeps(p.(show := p.show[GroupAt(n - 1) := Shown(GroupAt(n - 1), e)]), GroupAt(n - 1),
                    Shown(GroupAt(n - 1), e), Rows(GroupAt(n - 1)));
      UpdateGroup(p, GroupAt(n - 1), e, force)
  }

  /** update_option_visibility. */
  function Update(s: State, e: Env): State
    requires Flags(s)
  {
    UpdateGroups(s.(force := false), e, s.force, GROUPS)
  }

  // ---------------------------------------------------------------- definitions

  const EXPLAIN_INFO_MAX := 3072

  function Amended(d: Def, note: string): Def {
    d.(info := Some(Clip(note + (if d.info.Some? then " " + d.info.value else ""), EXPLAIN_INFO_MAX)),
       infoCategorized := None)
  }

  /** The info text a definition shows instead of its own: the note, then its own text, as far as
    * there is room; and no second text in its place. */
  ghost predicate ShowsNote(shown: Def, d: Def, note: string) {
    var rest := if d.info.Some? then " " + d.info.value else "";
    && shown == d.(info := shown.info, infoCategorized := None) && shown.info.Some?
    && shown.info.value <= note + rest
    && |shown.info.value| == if |note| + |rest| < 3072 then |note| + |rest| else 3071
  }

  lemma AmendedShows(d: Def, note: string)
    ensures ShowsNote(Amended(d, note), d, note)
    ensures |note| < 3072 ==> note <= Amended(d, note).info.value
  {
  }

  /** The table core_options_push sends: a copy amended entry by entry. */
  function Published(base: seq<Def>, cur: seq<Amendment>): (r: seq<Def>)
    ensures |r| == |base|
  {
    if cur == [] then base
    else
      var r, a := Published(base, cur[..|cur|-1]), cur[|cur|-1];
      if a.idx < |r| then r[a.idx := Amended(r[a.idx], a.note)] else r
  }

  function PushDefs(s: State): State {
    if s.front.v2 then s.(front := s.front.(defs := Published(s.base, s.cur), hidden := {})) else s
  }

  /** explain_repush: nothing at all for a frontend without version 2. */
  function Repush(s: State, e: Env): State
    requires Flags(s)
  {
    if !s.front.v2 then s else Update(PushDefs(s).(force := true), e)
  }

  function ExplainUpdate(s: State, next: seq<Amendment>, e: Env): State
    requires Flags(s)
  {
    if next == s.cur then s else Repush(s.(cur := next, pushed := next != []), e)
  }

  /** explain_reset at unload. */
  function ExplainForget(s: State, e: Env): State
    requires Flags(s)
  {
    var t := s.(cur := [], pushed := false);
    if s.pushed then Repush(t, e) else t
  }

  // ---------------------------------------------------------------- the host list

  const HOST_KEY := "virtualjaguar_netlink_host"
  datatype Peer = Peer(addr: string, name: string, voiceModem: bool)

  function HostIndex(s: State): nat { Find(s.base, HOST_KEY) }

  function PeerRow(p: Peer, voiceModem: bool): Value {
    Value(Clip(p.addr, 46),
          Some(Clip((if p.name == "" then p.addr else p.name) + " - " + p.addr
                    + (if p.voiceModem == voiceModem then ""
                       else if p.voiceModem then " (Voice Modem)" else " (JagLink)"),
                    128)))
  }

  function PeerRows(peers: seq<Peer>, voiceModem: bool): seq<Value> {
    if peers == [] then [] else PeerRows(peers[..|peers|-1], voiceModem) + [PeerRow(peers[|peers|-1], voiceModem)]
  }

  /** A peer as the picker shows it: its address to dial, and a label of its name (or again the
    * address), the address, and its device when that is not the one plugged in here. */
  ghost predicate ShowsPeer(row: Value, p: Peer, voiceModem: bool) {
    var text := (if p.name == "" then p.addr else p.name) + " - " + p.addr;
    var device := if p.voiceModem then " (Voice Modem)" else " (JagLink)";
    var whole := text + if p.voiceModem == voiceModem then "" else device;
    && row.value <= p.addr && |row.value| == (if |p.addr| < 46 then |p.addr| else 45)
    && row.caption.Some? && row.caption.value <= whole
    && |row.caption.value| == if |whole| < 128 then |whole| else 127
  }

  lemma {:induction false} RowsShowPeers(peers: seq<Peer>, voiceModem: bool, i: nat)
    requires i < |peers|
    ensures |PeerRows(peers, voiceModem)| == |peers|
    ensures ShowsPeer(PeerRows(peers, voiceModem)[i], peers[i], voiceModem)
  {
    RowCount(peers, voiceModem);
    RowCount(peers[..|peers|-1], voiceModem);
    if i < |peers| - 1 {
      RowsShowPeers(peers[..|peers|-1], voiceModem, i);
    }
  }

  lemma {:induction false} RowCount(peers: seq<Peer>, voiceModem: bool)
    ensures |PeerRows(peers, voiceModem)| == |peers|
  {
    if peers != [] {
      RowCount(peers[..|peers|-1], voiceModem);
    }
  }

  function Listed(peers: seq<Peer>): seq<Peer> {
    if |peers| > HostPicker.JLINK_DISC_MAX_PEERS then peers[..HostPicker.JLINK_DISC_MAX_PEERS] else peers
  }

  function HostValues(presets: seq<Value>, peers: seq<Peer>, voiceModem: bool): seq<Value>
    requires |presets| == 3
  {
    [presets[0]] + PeerRows(Listed(peers), voiceModem) + [presets[1], presets[2]]
  }

  function WithHostValues(base: seq<Def>, h: nat, values: seq<Value>): seq<Def>
    requires h < |base|
  {
    base[h := base[h].(values := values)]
  }

  function SavedPresets(s: State): seq<Value>
    requires HostIndex(s) < |s.base| && (!s.presetsValid ==> |s.base[HostIndex(s)].values| >= 3)
  {
    if s.presetsValid then s.presets else s.base[HostIndex(s)].values[..3]
  }

  ghost predicate HostReady(s: State) {
    && HostIndex(s) < |s.base|
    && if s.presetsValid then |s.presets| == 3 else |s.base[HostIndex(s)].values| == 3
  }

  /** netlink_rebuild_host_options. */
  function Rebuild(s: State, peers: seq<Peer>, voiceModem: bool, e: Env): State
    requires Flags(s) && HostReady(s)
  {
    var p := SavedPresets(s);
    var t := s.(presets := p, presetsValid := true,
                base := WithHostValues(s.base, HostIndex(s), HostValues(p, peers, voiceModem)));
    Update(PushDefs(t).(force := true), e)
  }

  // ---------------------------------------------------------------- sessions

  function ShownUpTo(n: nat): (m: map<Group, bool>)
    requires n <= GROUPS
    ensures forall g: Group :: PlaceOfGroup(g) < n ==> g in m && m[g]
  {
    if n == 0 then map[] else ShownUpTo(n - 1)[GroupAt(n - 1) := true]
  }

  /** Every flag at its initial value. */
  function AllShown(): (m: map<Group, bool>)
    ensures forall g: Group :: g in m && m[g]
  {
    assert forall g: Group :: PlaceOfGroup(g) < GROUPS;
    ShownUpTo(GROUPS)
  }

  /** retro_set_environment on a core that is not running: the base table goes out, every row
    * visible. */
  function Attach(s: State, v2: bool, display: bool): State {
    s.(front := Frontend(v2, display, {}, s.base, 0))
  }

  /** retro_unload_game: visibility with no content, explanations withdrawn once the packs and
    * the link are closed (so `later` may differ from `e`), and then the input, CD and cartridge
    * flags set without a push. */
  function Unload(s: State, e: Env, later: Env): State
    requires Flags(s)
  {
    var t := ExplainForget(Update(s, e), later);
    t.(show := t.show[Inputs := true][CdOnly := true][CartOnly := true])
  }

  /** What the predicates see once the content is gone. */
  function Bare(e: Env): Env { e.(contentLoaded := false, cdMode := false) }

  /** retro_deinit. */
  function Deinit(s: State): State
    requires HostIndex(s) < |s.base|
  {
    s.(answer := Unasked, show := AllShown(), force := false, cur := [], pushed := false,
       base := if s.presetsValid then WithHostValues(s.base, HostIndex(s), s.presets) else s.base)
  }

  datatype Event =
    | Visibility(e: Env)
    | Explain(next: seq<Amendment>, e: Env)
    | PeersChanged(peers: seq<Peer>, voiceModem: bool, e: Env)
    | UnloadGame(e: Env, later: Env)
    | Restart(v2: bool, display: bool)   // retro_deinit, then retro_set_environment again

  function Next(s: State, ev: Event): State
    requires Flags(s) && HostReady(s)
  {
    match ev
    case Visibility(e) => Update(s, e)
    case Explain(next, e) => ExplainUpdate(s, next, e)
    case PeersChanged(peers, vm, e) => Rebuild(s, peers, vm, e)
    case UnloadGame(e, later) => Unload(s, Bare(e), Bare(later))
    case Restart(v2, display) => Attach(Deinit(s), v2, display)
  }

  // ---------------------------------------------------------------- rows, group by group

  /** The frontend shows all of a group, or none of it. */
  ghost predicate RowsAre(f: Frontend, g: Group, visible: bool) {
    forall n :: 0 <= n < Rows(g) ==> (Key(g, n) in f.hidden <==> !visible)
  }

  /** What sending rows leaves alone. */
  lemma {:induction false} PushRowsKeeps(s: State, g: Group, visible: bool, n: nat)
    ensures var t := PushRows(s, g, visible, n);
      t == s.(front := t.front, answer := t.answer)
      && t.front == s.front.(hidden := t.front.hidden, calls := t.front.calls)
  {
    if n > 0 {
      PushRowsKeeps(s, g, visible, n - 1);
    }
  }

  lemma {:induction false} PushRowsReach(s: State, g: Group, visible: bool, n: nat, k: Key)
    requires s.front.display && !s.answer.Refused?
    ensures var t := PushRows(s, g, visible, n);
      && !t.answer.Refused? && t.front.display
      && (k in t.front.hidden <==> if k.group == g && k.n < n then !visible else k in s.front.hidden)
  {
    if n > 0 {
      PushRowsReach(s, g, visible, n - 1, k);
    }
  }

  /** A frontend that refuses is asked once. */
  ghost predicate AskedOnce(s: State) {
    !s.front.display ==> s.front.calls <= 1 && (s.answer.Refused? <==> s.front.calls == 1)
                         && !s.answer.Supported? && s.front.hidden == {}
  }

  lemma {:induction false} PushRowsAskOnce(s: State, g: Group, visible: bool, n: nat)
    requires AskedOnce(s)
    ensures AskedOnce(PushRows(s, g, visible, n))
  {
    if n > 0 {
      PushRowsAskOnce(s, g, visible, n - 1);
    }
  }

  ghost predicate GroupSynced(s: State, g: Group) {
    g in s.show && (s.front.display ==> !s.answer.Refused? && RowsAre(s.front, g, s.show[g]))
  }

  ghost predicate RowsKept(f: Frontend, f': Frontend, g: Group) {
    forall n :: 0 <= n < Rows(g) ==> (Key(g, n) in f'.hidden <==> Key(g, n) in f.hidden)
  }

  /** Updates touch flags and rows only, and a frontend that shows rows never refuses. */
  ghost predicate OnlyRows(s: State, t: State) {
    && (t.front.display ==> !t.answer.Refused?)
    && t == s.(front := t.front, answer := t.answer, show := t.show)
    && t.front == s.front.(hidden := t.front.hidden, calls := t.front.calls)
  }

  /** Group h after its turn: flag at its predicate; rows sent exactly when forced or moved. */
  ghost predicate Visited(s: State, t: State, e: Env, force: bool, h: Group) {
    && h in s.show && h in t.show && t.show[h] == Shown(h, e)
    && (s.front.display ==>
          if force || Shown(h, e) != s.show[h] then RowsAre(t.front, h, Shown(h, e))
          else RowsKept(s.front, t.front, h))
  }

  ghost predicate Unvisited(s: State, t: State, h: Group) {
    h in s.show && h in t.show && t.show[h] == s.show[h] && (s.front.display ==> RowsKept(s.front, t.front, h))
  }

  /** Rows sent to a frontend that shows and hides them. */
  lemma PushedRows(s: State, g: Group, visible: bool, h: Group)
    requires s.front.display && !s.answer.Refused?
    ensures var t := PushRows(s, g, visible, Rows(g));
      !t.answer.Refused? && if h == g then RowsAre(t.front, g, visible) else RowsKept(s.front, t.front, h)
  {
    PushRowsReach(s, g, visible, Rows(g), Key(g, 0));
    forall n | 0 <= n < Rows(h)
      ensures Key(h, n) in PushRows(s, g, visible, Rows(g)).front.hidden
        <==> if h == g then !visible else Key(h, n) in s.front.hidden
    {
      PushRowsReach(s, g, visible, Rows(g), Key(h, n));
    }
  }

  lemma GroupOnlyRows(s: State, g: Group, e: Env, force: bool)
    requires Flags(s) && (s.front.display ==> !s.answer.Refused?)
    ensures OnlyRows(s, UpdateGroup(s, g, e, force))
  {
    var u := s.(show := s.show[g := Shown(g, e)]);
    PushRowsKeeps(u, g, Shown(g, e), Rows(g));
    if s.front.display {
      PushedRows(u, g, Shown(g, e), g);
    }
  }

  lemma GroupVisited(s: State, g: Group, e: Env, force: bool)
    requires Flags(s) && (s.front.display ==> !s.answer.Refused?)
    ensures Visited(s, UpdateGroup(s, g, e, force), e, force, g)
  {
    var u := s.(show := s.show[g := Shown(g, e)]);
    PushRowsKeeps(u, g, Shown(g, e), Rows(g));
    if s.front.display {
      PushedRows(u, g, Shown(g, e), g);
    }
  }

  lemma GroupUnvisited(s: State, g: Group, e: Env, force: bool, h: Group)
    requires Flags(s) && (s.front.display ==> !s.answer.Refused?) && h != g
    ensures Unvisited(s, UpdateGroup(s, g, e, force), h)
  {
    var u := s.(show := s.show[g := Shown(g, e)]);
    PushRowsKeeps(u, g, Shown(g, e), Rows(g));
    if s.front.display {
      PushedRows(u, g, Shown(g, e), h);
    }
  }

  lemma VisitChain(s: State, p: State, t: State, e: Env, force: bool, h: Group)
    requires OnlyRows(s, p) && OnlyRows(p, t)
    ensures OnlyRows(s, t)
    ensures Unvisited(s, p, h) && Unvisited(p, t, h) ==> Unvisited(s, t, h)
    ensures Unvisited(s, p, h) && Visited(p, t, e, force, h) ==> Visited(s, t, e, force, h)
    ensures Visited(s, p, e, force, h) && Unvisited(p, t, h) ==> Visited(s, t, e, force, h)
  {
  }

  lemma {:induction false} UpdateGroupsEffect(s: State, e: Env, force: bool, n: nat, h: Group)
    requires Flags(s) && n <= GROUPS && (s.front.display ==> !s.answer.Refused?)
    ensures OnlyRows(s, UpdateGroups(s, e, force, n))
    ensures PlaceOfGroup(h) < n ==> Visited(s, UpdateGroups(s, e, force, n), e, force, h)
    ensures PlaceOfGroup(h) >= n ==> Unvisited(s, UpdateGroups(s, e, force, n), h)
  {
    if n > 0 {
      var p, t := UpdateGroups(s, e, force, n - 1), UpdateGroups(s, e, force, n);
      UpdateGroupsEffect(s, e, force, n - 1, h);
      assert t == UpdateGroup(p, GroupAt(n - 1), e, force);
      GroupPlaces(h, n - 1);
      GroupOnlyRows(p, GroupAt(n - 1), e, force);
      if h == GroupAt(n - 1) {
        GroupVisited(p, h, e, force);
      } else {
        GroupUnvisited(p, GroupAt(n - 1), e, force, h);
      }
      VisitChain(s, p, t, e, force, h);
    }
  }

  lemma GroupPlaces(h: Group, k: nat)
    requires k < GROUPS
    ensures h == GroupAt(k) <==> PlaceOfGroup(h) == k
  {
  }

  /** One visibility update: afterwards every group's cached flag is its predicate, and its rows
    * were sent exactly when forced or when the flag moved. */
  lemma UpdateEffect(s: State, e: Env, h: Group)
    requires Flags(s) && (s.front.display ==> !s.answer.Refused?)
    ensures var t := Update(s, e);
      && Flags(t) && !t.force && OnlyRows(s.(force := false), t)
      && Visited(s, t, e, s.force, h)
      && (s.force || GroupSynced(s, h) || Shown(h, e) != s.show[h] ==> GroupSynced(t, h))
  {
    UpdateGroupsEffect(s.(force := false), e, s.force, GROUPS, h);
  }

  lemma {:induction false} UpdateGroupsAskOnce(s: State, e: Env, force: bool, n: nat)
    requires Flags(s) && AskedOnce(s)
    ensures AskedOnce(UpdateGroups(s, e, force, n))
  {
    if n > 0 {
      UpdateGroupsAskOnce(s, e, force, n - 1);
      var p, g := UpdateGroups(s, e, force, n - 1), GroupAt(n - 1);
      PushRowsAskOnce(p.(show := p.show[g := Shown(g, e)]), g, Shown(g, e), Rows(g));
    }
  }

  // ---------------------------------------------------------------- definitions, index by index

  ghost predicate Amends(cur: seq<Amendment>, k: nat, i: nat) {
    i < |cur| && cur[i].idx == k
  }

  /** What is published differs from the table in the info texts of the amended options only. */
  lemma {:induction false} PublishedAt(base: seq<Def>, cur: seq<Amendment>, k: nat)
    requires Sorted(cur) && k < |base|
    ensures (forall i :: 0 <= i < |cur| ==> cur[i].idx != k) ==> Published(base, cur)[k] == base[k]
    ensures forall i: nat :: Amends(cur, k, i) ==> ShowsNote(Published(base, cur)[k], base[k], cur[i].note)
    ensures Published(base, cur)[k] == base[k].(info := Published(base, cur)[k].info,
                                                infoCategorized := Published(base, cur)[k].infoCategorized)
    decreases |cur|
  {
    if cur != [] {
      PublishedAt(base, cur[..|cur|-1], k);
      AmendedShows(base[k], cur[|cur|-1].note);
    }
  }

  lemma {:induction false} FindByKeys(a: seq<Def>, b: seq<Def>, key: string)
    requires |a| == |b| && forall i :: 0 <= i < |a| ==> a[i].key == b[i].key
    ensures Find(a, key) == Find(b, key)
  {
    if a != [] {
      FindByKeys(a[1..], b[1..], key);
    }
  }

  // ---------------------------------------------------------------- every session

  /** Table and frontend between calls; `orig` is the table as compiled in, `rows` the host
    * values the last peer list asks for. */
  ghost predicate DefsInStep(s: State, orig: seq<Def>, rows: seq<Value>) {
    var h := Find(orig, HOST_KEY);
    && h < |orig| && |orig[h].values| == 3
    && s.base == WithHostValues(orig, h, rows)
    && (if s.presetsValid then s.presets == orig[h].values else rows == orig[h].values)
    && (s.pushed <==> s.cur != [])
    && (s.front.v2 ==> s.front.defs == Published(s.base, s.cur))
  }

  ghost predicate Calm(s: State) {
    Flags(s) && !s.force && (s.front.display ==> !s.answer.Refused?) && AskedOnce(s)
  }

  ghost predicate Inv(s: State, orig: seq<Def>, rows: seq<Value>) {
    Calm(s) && DefsInStep(s, orig, rows)
    && forall g: Group :: g != Inputs ==> GroupSynced(s, g)
  }

  /** Host values after an event: a function of the last peer list alone. */
  function RowsAfter(orig: seq<Def>, rows: seq<Value>, ev: Event): seq<Value>
    requires Find(orig, HOST_KEY) < |orig| && |orig[Find(orig, HOST_KEY)].values| == 3
  {
    var presets := orig[Find(orig, HOST_KEY)].values;
    match ev
    case PeersChanged(peers, vm, _) => HostValues(presets, peers, vm)
    case Restart(_, _) => presets
    case _ => rows
  }

  lemma HostStays(s: State, orig: seq<Def>, rows: seq<Value>)
    requires DefsInStep(s, orig, rows)
    ensures HostIndex(s) == Find(orig, HOST_KEY) < |s.base| && HostReady(s)
  {
    FindByKeys(s.base, orig, HOST_KEY);
  }

  /** An update from a calm or just-forced state. */
  lemma UpdateCalms(s: State, e: Env)
    requires Flags(s) && (s.front.display ==> !s.answer.Refused?) && AskedOnce(s)
    ensures Calm(Update(s, e)) && OnlyRows(s.(force := false), Update(s, e))
    ensures forall g: Group :: Update(s, e).show[g] == Shown(g, e)
    ensures forall g: Group :: s.force || GroupSynced(s, g) || Shown(g, e) != s.show[g] ==> GroupSynced(Update(s, e), g)
  {
    UpdateGroupsAskOnce(s.(force := false), e, s.force, GROUPS);
    forall g: Group
      ensures Calm(Update(s, e)) && OnlyRows(s.(force := false), Update(s, e))
      ensures Update(s, e).show[g] == Shown(g, e)
      ensures s.force || GroupSynced(s, g) || Shown(g, e) != s.show[g] ==> GroupSynced(Update(s, e), g)
    {
      UpdateEffect(s, e, g);
    }
    UpdateEffect(s, e, Inputs);
  }

  /** Definitions out, then a forced update: everything is in step again. */
  lemma RepushCalms(s: State, e: Env)
    requires Calm(s)
    ensures var t := Update(PushDefs(s).(force := true), e);
      && Calm(t) && t == s.(front := t.front, answer := t.answer, show := t.show)
      && t.front.v2 == s.front.v2 && t.front.display == s.front.display
      && t.front.defs == (if s.front.v2 then Published(s.base, s.cur) else s.front.defs)
      && (forall g: Group :: GroupSynced(t, g) && t.show[g] == Shown(g, e))
  {
    UpdateCalms(PushDefs(s).(force := true), e);
  }

  /** A changed explanation record, or the withdrawal of all of it. */
  lemma ExplainCalms(s: State, cur: seq<Amendment>, e: Env)
    requires Calm(s)
    ensures var u := s.(cur := cur, pushed := cur != []); var t := Repush(u, e);
      && Calm(t) && t == u.(front := t.front, answer := t.answer, show := t.show)
      && t.front.v2 == s.front.v2 && t.front.display == s.front.display
      && (s.front.v2 ==> t.front.defs == Published(s.base, cur)
                         && forall g: Group :: GroupSynced(t, g) && t.show[g] == Shown(g, e))
      && (!s.front.v2 ==> t == u && forall g: Group :: GroupSynced(s, g) ==> GroupSynced(t, g))
  {
    RepushCalms(s.(cur := cur, pushed := cur != []), e);
  }

  lemma RebuildCalms(s: State, orig: seq<Def>, rows: seq<Value>, peers: seq<Peer>, vm: bool, e: Env)
    requires Calm(s) && DefsInStep(s, orig, rows) && HostReady(s) && HostIndex(s) == Find(orig, HOST_KEY)
    ensures var t := Rebuild(s, peers, vm, e);
      && Calm(t) && t.front.display == s.front.display
      && DefsInStep(t, orig, HostValues(orig[Find(orig, HOST_KEY)].values, peers, vm))
      && forall g: Group :: GroupSynced(t, g) && t.show[g] == Shown(g, e)
  {
    var p := SavedPresets(s);
    assert p == orig[Find(orig, HOST_KEY)].values;
    var base := WithHostValues(s.base, HostIndex(s), HostValues(p, peers, vm));
    assert base == WithHostValues(orig, HostIndex(s), HostValues(p, peers, vm));
    RepushCalms(s.(presets := p, presetsValid := true, base := base), e);
  }

  lemma ExplainKeepsInv(s: State, orig: seq<Def>, rows: seq<Value>, next: seq<Amendment>, e: Env)
    requires Inv(s, orig, rows)
    ensures Inv(ExplainUpdate(s, next, e), orig, rows)
    ensures GroupSynced(s, Inputs) ==> GroupSynced(ExplainUpdate(s, next, e), Inputs)
  {
    if next != s.cur {
      ExplainCalms(s, next, e);
      var t := ExplainUpdate(s, next, e);
      forall g: Group | GroupSynced(s, g) ensures GroupSynced(t, g) {
        if s.front.v2 {
          assert t.show[g] == Shown(g, e);
        } else {
          assert t == s.(cur := next, pushed := next != []);
        }
      }
    }
  }

  lemma VisibilityKeepsInv(s: State, orig: seq<Def>, rows: seq<Value>, e: Env)
    requires Inv(s, orig, rows)
    ensures Inv(Update(s, e), orig, rows)
    ensures GroupSynced(s, Inputs) ==> GroupSynced(Update(s, e), Inputs)
  {
    UpdateCalms(s, e);
  }

  /** Every event keeps the view in step; the input rows are dealt with below. */
  lemma StepKeepsInv(s: State, orig: seq<Def>, rows: seq<Value>, ev: Event)
    requires Inv(s, orig, rows) && HostReady(s)
    ensures Inv(Next(s, ev), orig, RowsAfter(orig, rows, ev))
    ensures !ev.UnloadGame? && GroupSynced(s, Inputs) ==> GroupSynced(Next(s, ev), Inputs)
  {
    HostStays(s, orig, rows);
    match ev
    case Visibility(e) => VisibilityKeepsInv(s, orig, rows, e);
    case Explain(next, e) => ExplainKeepsInv(s, orig, rows, next, e);
    case PeersChanged(peers, vm, e) => RebuildCalms(s, orig, rows, peers, vm, e);
    case UnloadGame(e, later) => UnloadKeepsInv(s, orig, rows, e, later);
    case Restart(v2, display) => RestartInv(s, orig, rows, v2, display);
  }

  lemma RestartInv(s: State, orig: seq<Def>, rows: seq<Value>, v2: bool, display: bool)
    requires Inv(s, orig, rows) && HostReady(s) && HostIndex(s) == Find(orig, HOST_KEY)
    ensures var t := Attach(Deinit(s), v2, display);
      Inv(t, orig, orig[Find(orig, HOST_KEY)].values) && forall g: Group :: GroupSynced(t, g)
  {
    var h := Find(orig, HOST_KEY);
    assert WithHostValues(WithHostValues(orig, h, rows), h, orig[h].values) == orig;
    assert WithHostValues(orig, h, orig[h].values) == orig;
    assert Published(orig, []) == orig;
  }

  lemma UnloadKeepsInv(s: State, orig: seq<Def>, rows: seq<Value>, e: Env, later: Env)
    requires Inv(s, orig, rows)
    ensures var t := Unload(s, Bare(e), Bare(later));
      && Inv(t, orig, rows) && t.front.display == s.front.display
      && t.show[Inputs] && t.show[CdOnly] && t.show[CartOnly]
      && (GroupSynced(s, Inputs) && t.front.display ==> RowsAre(t.front, Inputs, Shown(Inputs, Resent(s, e, later))))
  {
    UpdateCalms(s, Bare(e));
    var u := Update(s, Bare(e));
    ForgetCalms(u, orig, rows, Bare(later));
    var x := ExplainForget(u, Bare(later));
    assert x.show[CdOnly] && x.show[CartOnly];
    RaiseFlags(x, orig, rows);
    if GroupSynced(s, Inputs) {
      assert GroupSynced(u, Inputs) && GroupSynced(x, Inputs);
    }
  }

  /** What the rows were last sent from at an unload: the withdrawal of explanations sends them
    * again. */
  function Resent(s: State, e: Env, later: Env): Env {
    if s.front.v2 && s.cur != [] then later else e
  }

  /** Setting flags that are already up changes nothing; the input flag is the exception. */
  lemma RaiseFlags(x: State, orig: seq<Def>, rows: seq<Value>)
    requires Calm(x) && DefsInStep(x, orig, rows) && x.show[CdOnly] && x.show[CartOnly]
    ensures var t := x.(show := x.show[Inputs := true][CdOnly := true][CartOnly := true]);
      && Calm(t) && DefsInStep(t, orig, rows) && t.show[Inputs]
      && forall g: Group :: g != Inputs && GroupSynced(x, g) ==> GroupSynced(t, g)
  {
  }

  lemma ForgetCalms(u: State, orig: seq<Def>, rows: seq<Value>, e: Env)
    requires Calm(u) && DefsInStep(u, orig, rows)
    ensures var x := ExplainForget(u, e);
      && Calm(x) && DefsInStep(x, orig, rows) && x.front.display == u.front.display
      && forall g: Group :: x.show[g] == (if u.front.v2 && u.cur != [] then Shown(g, e) else u.show[g])
                            && (GroupSynced(u, g) ==> GroupSynced(x, g))
  {
    ExplainCalms(u, [], e);
    var x := ExplainForget(u, e);
    assert Published(u.base, []) == u.base;
    forall g: Group
      ensures x.show[g] == (if u.front.v2 && u.cur != [] then Shown(g, e) else u.show[g])
      ensures GroupSynced(u, g) ==> GroupSynced(x, g)
    {
    }
  }

  // ---------------------------------------------------------------- whole runs

  function Fresh(orig: seq<Def>, v2: bool, display: bool): State {
    Attach(State(Frontend(v2, display, {}, [], 0), Unasked, AllShown(), false, orig, [], false, [], false), v2, display)
  }

  ghost predicate TableOk(orig: seq<Def>) {
    Find(orig, HOST_KEY) < |orig| && |orig[Find(orig, HOST_KEY)].values| == 3
  }

  /** State and expected host values after a run, starting from environment setup. */
  ghost function Exec(orig: seq<Def>, v2: bool, display: bool, run: seq<Event>): (r: (State, seq<Value>))
    requires TableOk(orig)
    ensures Inv(r.0, orig, r.1)
  {
    var h := Find(orig, HOST_KEY);
    if run == [] then
      assert WithHostValues(orig, h, orig[h].values) == orig;
      (Fresh(orig, v2, display), orig[h].values)
    else
      var front, ev := run[..|run|-1], run[|run|-1];
      var p := Exec(orig, v2, display, front);
      HostStays(p.0, orig, p.1);
      StepKeepsInv(p.0, orig, p.1, ev);
      (Next(p.0, ev), RowsAfter(orig, p.1, ev))
  }

  ghost predicate Updates(s: State, ev: Event) {
    ev.Visibility? || ev.PeersChanged? || (ev.Explain? && ev.next != s.cur && s.front.v2)
  }

  // ---------------------------------------------------------------- the input rows

  /** What the events of a run say: whether the frontend last attached takes version 2, and the
    * amendment set last computed. */
  function AttachedV2(run: seq<Event>, v2: bool): bool {
    if run == [] then v2
    else match run[|run|-1]
      case Restart(next, _) => next
      case _ => AttachedV2(run[..|run|-1], v2)
  }

  function LastSet(run: seq<Event>): seq<Amendment> {
    if run == [] then []
    else match run[|run|-1]
      case Explain(next, _) => next
      case UnloadGame(_, _) => []
      case Restart(_, _) => []
      case _ => LastSet(run[..|run|-1])
  }

  /** An unload that hid the input rows, with nothing since that sends them again: no rebuild, no
    * re-push (of changed explanations, or of their withdrawal), no restart, and no update that
    * hides them anyway. */
  predicate Stale(run: seq<Event>, v2: bool) {
    run != [] &&
    var past := run[..|run|-1];
    StaleAfter(run[|run|-1], AttachedV2(past, v2) && LastSet(past) != [],
               AttachedV2(past, v2) && run[|run|-1].Explain? && run[|run|-1].next != LastSet(past), Stale(past, v2))
  }

  /** One event of it; `withdraws` and `repushes` say whether definitions go out in it. */
  predicate StaleAfter(ev: Event, withdraws: bool, repushes: bool, stale: bool) {
    match ev
    case Visibility(e) => Shown(Inputs, e) && stale
    case Explain(_, _) => stale && !repushes
    case PeersChanged(_, _, _) => false
    case UnloadGame(e, later) => if withdraws then !Shown(Inputs, later) else !Shown(Inputs, e) || stale
    case Restart(_, _) => false
  }

  /** Flag and rows of the input group: in step, or the flag up and the rows hidden. */
  ghost predicate InputsAre(s: State, stale: bool) {
    s.front.display ==>
      if stale then Inputs in s.show && s.show[Inputs] && !s.answer.Refused? && RowsAre(s.front, Inputs, false)
      else GroupSynced(s, Inputs)
  }

  lemma UpdateInputs(s: State, e: Env, stale: bool)
    requires Calm(s) && InputsAre(s, stale)
    ensures InputsAre(Update(s, e), stale && Shown(Inputs, e))
  {
    UpdateCalms(s, e);
    UpdateEffect(s, e, Inputs);
  }

  lemma ExplainInputs(s: State, next: seq<Amendment>, e: Env, stale: bool)
    requires Calm(s) && InputsAre(s, stale)
    ensures InputsAre(ExplainUpdate(s, next, e), stale && !(s.front.v2 && next != s.cur))
  {
    if next != s.cur {
      var t := ExplainUpdate(s, next, e);
      ExplainCalms(s, next, e);
      if s.front.v2 {
        assert t.show[Inputs] == Shown(Inputs, e) && GroupSynced(t, Inputs);
      } else {
        assert t.front == s.front && t.show == s.show && t.answer == s.answer;
      }
    }
  }

  lemma ForgetInputs(s: State, e: Env, stale: bool)
    requires Calm(s) && InputsAre(s, stale) && (s.pushed <==> s.cur != [])
    ensures InputsAre(ExplainForget(s, e), stale && !(s.front.v2 && s.cur != []))
  {
    ExplainCalms(s, [], e);
    var t := ExplainForget(s, e);
    if s.pushed && s.front.v2 {
      assert t.show[Inputs] == Shown(Inputs, e) && GroupSynced(t, Inputs);
    } else {
      assert t.front == s.front && t.show == s.show && t.answer == s.answer;
    }
  }

  lemma RaiseInputs(x: State, stale: bool)
    requires Flags(x) && InputsAre(x, stale)
    ensures var t := x.(show := x.show[Inputs := true][CdOnly := true][CartOnly := true]);
      InputsAre(t, stale || !x.show[Inputs])
  {
  }

  lemma UnloadInputs(s: State, orig: seq<Def>, rows: seq<Value>, e: Env, later: Env, stale: bool)
    requires Inv(s, orig, rows) && InputsAre(s, stale)
    ensures InputsAre(Unload(s, Bare(e), Bare(later)),
                      if s.front.v2 && s.cur != [] then !Shown(Inputs, later) else !Shown(Inputs, e) || stale)
  {
    UpdateCalms(s, Bare(e));
    UpdateInputs(s, Bare(e), stale);
    var u := Update(s, Bare(e));
    ForgetCalms(u, orig, rows, Bare(later));
    ForgetInputs(u, Bare(later), stale && Shown(Inputs, e));
    assert u.front.v2 == s.front.v2 && u.cur == s.cur;
    RaiseInputs(ExplainForget(u, Bare(later)), stale && Shown(Inputs, e) && !(u.front.v2 && u.cur != []));
  }

  lemma StepInputs(s: State, orig: seq<Def>, rows: seq<Value>, ev: Event, stale: bool)
    requires Inv(s, orig, rows) && HostReady(s) && HostIndex(s) == Find(orig, HOST_KEY) && InputsAre(s, stale)
    ensures InputsAre(Next(s, ev), StaleAfter(ev, s.front.v2 && s.cur != [],
                                              s.front.v2 && ev.Explain? && ev.next != s.cur, stale))
  {
    match ev
    case Visibility(e) => UpdateInputs(s, e, stale);
    case Explain(next, e) => ExplainInputs(s, next, e, stale);
    case PeersChanged(peers, vm, e) => RebuildCalms(s, orig, rows, peers, vm, e);
    case UnloadGame(e, later) => UnloadInputs(s, orig, rows, e, later, stale);
    case Restart(again, display) => RestartInv(s, orig, rows, again, display);
  }

  lemma V2After(s: State, ev: Event)
    requires Flags(s) && HostReady(s) && Calm(s)
    ensures Next(s, ev).front.v2 == match ev case Restart(v2, _) => v2 case _ => s.front.v2
  {
    match ev
    case Visibility(e) => UpdateCalms(s, e);
    case Explain(next, e) => ExplainCalms(s, next, e);
    case PeersChanged(peers, vm, e) =>
      var p := SavedPresets(s);
      var base := WithHostValues(s.base, HostIndex(s), HostValues(p, peers, vm));
      RepushCalms(s.(presets := p, presetsValid := true, base := base), e);
    case UnloadGame(e, later) =>
      UpdateCalms(s, Bare(e));
      ExplainCalms(Update(s, Bare(e)), [], Bare(later));
    case Restart(_, _) =>
  }

  lemma {:induction false} InputsFollowHistory(orig: seq<Def>, v2: bool, display: bool, run: seq<Event>)
    requires TableOk(orig)
    ensures var s := Exec(orig, v2, display, run).0;
      InputsAre(s, Stale(run, v2)) && s.front.v2 == AttachedV2(run, v2) && s.cur == LastSet(run)
  {
    if run != [] {
      var past, ev := run[..|run|-1], run[|run|-1];
      InputsFollowHistory(orig, v2, display, past);
      var p := Exec(orig, v2, display, past);
      HostStays(p.0, orig, p.1);
      StepInputs(p.0, orig, p.1, ev, Stale(past, v2));
      V2After(p.0, ev);
      CurAfter(p.0, ev);
    }
  }

  /** Change-only pushes refine "push everything".  After any run and one more visibility
    * update, explanation re-push or host rebuild, a frontend that can hide rows shows exactly
    * the rows whose group predicate holds at that moment, for every group.  There is one
    * exception and this is all of it: the input rows, while an unload hid them and nothing has
    * sent them since. */
  lemma RowsFollowPredicates(orig: seq<Def>, v2: bool, display: bool, run: seq<Event>, ev: Event, g: Group, n: nat)
    requires TableOk(orig) && Updates(Exec(orig, v2, display, run).0, ev)
    requires Exec(orig, v2, display, run).0.front.display && n < Rows(g)
    ensures var t := Exec(orig, v2, display, run + [ev]).0;
      (Key(g, n) in t.front.hidden <==> !Shown(g, ev.e)) <==> !(g.Inputs? && Stale(run + [ev], v2))
  {
    var all := run + [ev];
    assert all[..|run|] == run;
    var p := Exec(orig, v2, display, run);
    HostStays(p.0, orig, p.1);
    StepKeepsInv(p.0, orig, p.1, ev);
    StepAnswers(p.0, orig, p.1, ev, g);
    assert Exec(orig, v2, display, all).0 == Next(p.0, ev);
    if g.Inputs? {
      InputsFollowHistory(orig, v2, display, all);
    } else {
      assert GroupSynced(Next(p.0, ev), g);
    }
  }

  const HIDDEN_INPUTS := Env(Some("disabled"), true, false, Ports.Pad, Ports.Pad, None, false, None, false, None)
  const SHOWN_INPUTS := HIDDEN_INPUTS.(altInputs := Some("enabled"))

  /** The exception happens: input rows switched off, the game unloaded, input rows switched on
    * again.  They stay hidden. */
  lemma InputRowsStayHidden(orig: seq<Def>, v2: bool, n: nat)
    requires TableOk(orig) && n < Rows(Inputs)
    ensures var run := [Visibility(HIDDEN_INPUTS), UnloadGame(HIDDEN_INPUTS, HIDDEN_INPUTS), Visibility(SHOWN_INPUTS)];
      Shown(Inputs, SHOWN_INPUTS) && Key(Inputs, n) in Exec(orig, v2, true, run).0.front.hidden
  {
    var two := [Visibility(HIDDEN_INPUTS), UnloadGame(HIDDEN_INPUTS, HIDDEN_INPUTS)];
    var run := two + [Visibility(SHOWN_INPUTS)];
    assert run == [Visibility(HIDDEN_INPUTS), UnloadGame(HIDDEN_INPUTS, HIDDEN_INPUTS), Visibility(SHOWN_INPUTS)];
    assert run[..2] == two;
    DisplayStays(orig, v2, true, two);
    assert Stale(two, v2) && Stale(run, v2);
    RowsFollowPredicates(orig, v2, true, two, Visibility(SHOWN_INPUTS), Inputs, n);
  }

  /** Only a restart changes what the frontend can do. */
  lemma {:induction false} DisplayStays(orig: seq<Def>, v2: bool, display: bool, run: seq<Event>)
    requires TableOk(orig) && forall ev :: ev in run ==> !ev.Restart?
    ensures Exec(orig, v2, display, run).0.front.display == display
  {
    if run != [] {
      var past, ev := run[..|run|-1], run[|run|-1];
      assert ev in run && forall x :: x in past ==> x in run;
      DisplayStays(orig, v2, display, past);
      var p := Exec(orig, v2, display, past);
      HostStays(p.0, orig, p.1);
      DisplayAfter(p.0, orig, p.1, ev);
    }
  }

  lemma DisplayAfter(s: State, orig: seq<Def>, rows: seq<Value>, ev: Event)
    requires Inv(s, orig, rows) && HostReady(s) && HostIndex(s) == Find(orig, HOST_KEY) && !ev.Restart?
    ensures Next(s, ev).front.display == s.front.display
  {
    match ev
    case Visibility(e) => UpdateCalms(s, e);
    case Explain(next, e) => ExplainCalms(s, next, e);
    case PeersChanged(peers, vm, e) => RebuildCalms(s, orig, rows, peers, vm, e);
    case UnloadGame(e, later) => UnloadKeepsInv(s, orig, rows, e, later);
  }

  lemma StepAnswers(s: State, orig: seq<Def>, rows: seq<Value>, ev: Event, g: Group)
    requires Inv(s, orig, rows) && HostReady(s) && Updates(s, ev)
    ensures Next(s, ev).front.display == s.front.display && g in Next(s, ev).show
    ensures Next(s, ev).show[g] == Shown(g, ev.e)
  {
    HostStays(s, orig, rows);
    match ev
    case Visibility(e) => UpdateCalms(s, e);
    case Explain(next, e) => ExplainCalms(s, next, e);
    case PeersChanged(peers, vm, e) => RebuildCalms(s, orig, rows, peers, vm, e);
  }

  /** One step of it.  Unloading sets the input flag without sending its rows, so after
    * an unload from a view in step, the next update leaves the input rows right if and only if
    * they were shown when the unload last sent them or are to be hidden now. */
  lemma InputRowsAfterUnload(s: State, orig: seq<Def>, rows: seq<Value>, e0: Env, later: Env, e: Env)
    requires Inv(s, orig, rows) && GroupSynced(s, Inputs) && s.front.display
    ensures var t := Update(Unload(s, Bare(e0), Bare(later)), e);
      RowsAre(t.front, Inputs, Shown(Inputs, e)) <==> Shown(Inputs, Resent(s, e0, later)) || !Shown(Inputs, e)
  {
    UnloadKeepsInv(s, orig, rows, e0, later);
    var u := Unload(s, Bare(e0), Bare(later));
    UpdateEffect(u, e, Inputs);
    var t := Update(u, e);
    assert Key(Inputs, 0) in u.front.hidden <==> !Shown(Inputs, Resent(s, e0, later));
    assert Visited(u, t, e, false, Inputs);
    if Shown(Inputs, e) {
      assert RowsKept(u.front, t.front, Inputs);
      assert Key(Inputs, 0) in t.front.hidden <==> Key(Inputs, 0) in u.front.hidden;
    }
  }

  /** Unloading brings back the rows that apply to one kind of content: afterwards neither those of
    * discs nor those of cartridges are hidden. */
  lemma UnloadRestoresList(orig: seq<Def>, v2: bool, display: bool, run: seq<Event>, e: Env, later: Env, n: nat)
    requires TableOk(orig) && Exec(orig, v2, display, run).0.front.display
    ensures var t := Exec(orig, v2, display, run + [UnloadGame(e, later)]).0;
      && (n < Rows(CdOnly) ==> Key(CdOnly, n) !in t.front.hidden)
      && (n < Rows(CartOnly) ==> Key(CartOnly, n) !in t.front.hidden)
  {
    var all := run + [UnloadGame(e, later)];
    assert all[..|run|] == run;
    var p := Exec(orig, v2, display, run);
    HostStays(p.0, orig, p.1);
    UnloadKeepsInv(p.0, orig, p.1, e, later);
    var t := Exec(orig, v2, display, all).0;
    assert t == Next(p.0, UnloadGame(e, later));
    assert GroupSynced(t, CdOnly) && GroupSynced(t, CartOnly);
  }

  /** A frontend that refuses the call is sent it at most once in a session. */
  lemma RefusalIsFinal(orig: seq<Def>, v2: bool, display: bool, run: seq<Event>)
    requires TableOk(orig)
    ensures var s := Exec(orig, v2, display, run).0; !s.front.display ==> s.front.calls <= 1
  {
  }

  /** Only sorted amendment sets are handed over, as AmendmentsSorted shows of every computed one. */
  ghost predicate SortedSets(run: seq<Event>) {
    run != [] ==> SortedSets(run[..|run|-1]) && (run[|run|-1].Explain? ==> Sorted(run[|run|-1].next))
  }

  lemma {:induction false} LiveSetSorted(orig: seq<Def>, v2: bool, display: bool, run: seq<Event>)
    requires TableOk(orig) && SortedSets(run)
    ensures Sorted(Exec(orig, v2, display, run).0.cur)
  {
    if run != [] {
      var front, ev := run[..|run|-1], run[|run|-1];
      LiveSetSorted(orig, v2, display, front);
      var p := Exec(orig, v2, display, front);
      HostStays(p.0, orig, p.1);
      CurAfter(p.0, ev);
    }
  }

  lemma CurAfter(s: State, ev: Event)
    requires Flags(s) && HostReady(s) && Calm(s)
    ensures Next(s, ev).cur == match ev
      case Explain(next, _) => next
      case UnloadGame(_, _) => []
      case Restart(_, _) => []
      case _ => s.cur
  {
    match ev
    case Visibility(e) => UpdateCalms(s, e);
    case Explain(next, e) => ExplainCalms(s, next, e);
    case PeersChanged(peers, vm, e) =>
      var p := SavedPresets(s);
      var base := WithHostValues(s.base, HostIndex(s), HostValues(p, peers, vm));
      RepushCalms(s.(presets := p, presetsValid := true, base := base), e);
    case UnloadGame(e, later) =>
      UpdateCalms(s, Bare(e));
      ExplainCalms(Update(s, Bare(e)), [], Bare(later));
    case Restart(_, _) =>
  }

  /** What a version 2 frontend holds after any run: the compiled-in table with the host entry
    * at first preset, current peers, last two presets, and info texts changed at the amended
    * options only, with the note of the current amendment, although an unchanged amendment set
    * is never sent again. */
  lemma DefinitionsFollow(orig: seq<Def>, v2: bool, display: bool, run: seq<Event>, k: nat)
    requires TableOk(orig) && k < |orig| && SortedSets(run)
    requires Exec(orig, v2, display, run).0.front.v2
    ensures var (s, rows) := Exec(orig, v2, display, run); var d := orig[k];
      var mine := if k == Find(orig, HOST_KEY) then d.(values := rows) else d;
      && |s.front.defs| == |orig|
      && ((forall i :: 0 <= i < |s.cur| ==> s.cur[i].idx != k) ==> s.front.defs[k] == mine)
      && (forall i: nat :: Amends(s.cur, k, i) ==> ShowsNote(s.front.defs[k], mine, s.cur[i].note))
  {
    var s := Exec(orig, v2, display, run).0;
    LiveSetSorted(orig, v2, display, run);
    PublishedAt(s.base, s.cur, k);
  }

  /** Entry k of the table published for a history of option reads. */
  ghost predicate Explains(shown: Def, d: Def, last: Option<Observation>) {
    if last.Some? && !last.value.outcome.Nothing? then
      var note := NoteOf(d, Stored(last.value));
      ShowsNote(shown, d, note) && note <= shown.info.value
    else shown == d
  }

  lemma NotesArePublished(base: seq<Def>, h: seq<Observation>, idle: Option<Amendment>, k: nat)
    requires k < |base| && Find(base, base[k].key) == k
    requires |EverActive(h)| <= EXPLAIN_MAX_OBS && (idle.Some? ==> idle.value.idx != k)
    ensures Explains(Published(base, Compute(base, TableOf(h), idle))[k], base[k], LastOf(h, base[k].key))
  {
    var next, o := Compute(base, TableOf(h), idle), LastOf(h, base[k].key);
    AmendmentsSorted(base, TableOf(h), idle);
    NoteOfOption(base, h, idle, k);
    PublishedOf(base, next, k);
    if o.Some? && !o.value.outcome.Nothing? {
      var a := Amendment(k, NoteOf(base[k], Stored(o.value)));
      assert a in next;
      assert ShowsNote(Published(base, next)[k], base[k], a.note);
    }
  }

  /** The explanations reach the screen.  After an update with the set computed from a history of
    * option reads, a version 2 frontend shows for every option the note of its key's last read
    * in front of its own text, or only its own text if that read had nothing to say.  The option
    * of the idle-skip note, if there is one, is the exception. */
  lemma NotesAreShown(orig: seq<Def>, v2: bool, display: bool, run: seq<Event>, h: seq<Observation>,
      idle: Option<Amendment>, e: Env, k: nat)
    requires TableOk(orig) && Exec(orig, v2, display, run).0.front.v2
    requires k < |orig| && Find(orig, orig[k].key) == k
    requires |EverActive(h)| <= EXPLAIN_MAX_OBS && (idle.Some? ==> idle.value.idx != k)
    ensures var base := Exec(orig, v2, display, run).0.base;
      var shown := Exec(orig, v2, display, run + [Explain(Compute(base, TableOf(h), idle), e)]).0.front.defs;
      && |base| == |shown| == |orig| && base[k] == orig[k].(values := base[k].values)
      && Explains(shown[k], base[k], LastOf(h, orig[k].key))
  {
    var p := Exec(orig, v2, display, run);
    var s, next := p.0, Compute(p.0.base, TableOf(h), idle);
    var ev := Explain(next, e);
    assert (run + [ev])[..|run|] == run;
    HostStays(s, orig, p.1);
    StepKeepsInv(s, orig, p.1, ev);
    CurAfter(s, ev);
    V2After(s, ev);
    ExplainCalms(s, next, e);
    FindByKeys(s.base, orig, orig[k].key);
    NotesArePublished(s.base, h, idle, k);
    var t := Next(s, ev);
    assert t.base == s.base && t.front.defs == Published(s.base, next);
  }

  /** Published entry by membership instead of position. */
  lemma PublishedOf(base: seq<Def>, cur: seq<Amendment>, k: nat)
    requires Sorted(cur) && k < |base|
    ensures forall a :: a in cur && a.idx == k ==> ShowsNote(Published(base, cur)[k], base[k], a.note)
    ensures (forall a :: a in cur ==> a.idx != k) ==> Published(base, cur)[k] == base[k]
  {
    PublishedAt(base, cur, k);
    forall a | a in cur && a.idx == k ensures ShowsNote(Published(base, cur)[k], base[k], a.note) {
      var i: nat :| i < |cur| && cur[i] == a;
      assert Amends(cur, k, i);
    }
  }

  /** The first preset, a row for each of the first eight peers in order, the other two presets. */
  ghost predicate ShowsPeers(values: seq<Value>, presets: seq<Value>, peers: seq<Peer>, voiceModem: bool)
    requires |presets| == 3
  {
    var n := if |peers| < 8 then |peers| else 8;
    && |values| == n + 3
    && values[0] == presets[0] && values[n + 1] == presets[1] && values[n + 2] == presets[2]
    && forall i :: 0 <= i < n ==> ShowsPeer(values[i + 1], peers[i], voiceModem)
  }

  lemma HostValuesShow(presets: seq<Value>, peers: seq<Peer>, voiceModem: bool)
    requires |presets| == 3
    ensures ShowsPeers(HostValues(presets, peers, voiceModem), presets, peers, voiceModem)
  {
    var listed := Listed(peers);
    RowCount(listed, voiceModem);
    var values, n := HostValues(presets, peers, voiceModem), |listed|;
    forall i | 0 <= i < n ensures ShowsPeer(values[i + 1], peers[i], voiceModem) {
      RowsShowPeers(listed, voiceModem, i);
      assert values[i + 1] == PeerRows(listed, voiceModem)[i];
    }
  }

  /** The host entry never remembers an earlier list: after a rebuild it shows the peers just
    * reported between the presets, and after deinit it is the three presets. */
  lemma HostEntryForgets(orig: seq<Def>, v2: bool, display: bool, run: seq<Event>, ev: Event)
    requires TableOk(orig) && (ev.PeersChanged? || ev.Restart?)
    ensures var h := Find(orig, HOST_KEY);
      var t := Exec(orig, v2, display, run + [ev]).0;
      && h < |t.base|
      && (ev.Restart? ==> t.base[h].values == orig[h].values)
      && (ev.PeersChanged? ==> ShowsPeers(t.base[h].values, orig[h].values, ev.peers, ev.voiceModem))
  {
    assert (run + [ev])[..|run|] == run;
    if ev.PeersChanged? {
      HostValuesShow(orig[Find(orig, HOST_KEY)].values, ev.peers, ev.voiceModem);
    }
  }

  // ---------------------------------------------------------------- the core's own code

  /** The statics of libretro.c behind the functions above, together with the frontend they
    * talk to. */
  class Publisher {
    var front: Frontend
    var answer: Answer
    var show: map<Group, bool>
    var force: bool
    var base: seq<Def>
    var presets: seq<Value>
    var presetsValid: bool
    var cur: seq<Amendment>
    var pushed: bool

    ghost function View(): State
      reads this
    {
      State(front, answer, show, force, base, presets, presetsValid, cur, pushed)
    }

    /** retro_set_environment on a fresh core. */
    constructor (orig: seq<Def>, v2: bool, display: bool)
      ensures View() == Fresh(orig, v2, display)
    {
      front, answer, show, force := Frontend(v2, display, {}, orig, 0), Unasked, AllShown(), false;
      base, presets, presetsValid, cur, pushed := orig, [], false, [], false;
    }

    /** option_display_push. */
    method SendRow(k: Key, visible: bool)
      modifies this`front, this`answer
      ensures View() == PushRow(old(View()), k, visible)
    {
      if answer.Refused? {
        return;
      }
      front := front.(calls := front.calls + 1);
      if front.display {
        front := front.(hidden := if visible then front.hidden - {k} else front.hidden + {k});
      }
      answer := if front.display then Supported else Refused;
    }

    method SendRows(g: Group, visible: bool)
      modifies this`front, this`answer
      ensures View() == PushRows(old(View()), g, visible, Rows(g))
    {
      for n := 0 to Rows(g)
        invariant View() == PushRows(old(View()), g, visible, n)
      {
        SendRow(Key(g, n), visible);
      }
    }

    /** One group's turn. */
    method VisitGroup(g: Group, e: Env, forced: bool)
      requires Flags(View())
      modifies this`front, this`answer, this`show
      ensures Flags(View()) && View() == UpdateGroup(old(View()), g, e, forced)
    {
      var before := show[g];
      show := show[g := Shown(g, e)];
      if forced || show[g] != before {
        PushRowsKeeps(View(), g, show[g], Rows(g));
        SendRows(g, show[g]);
      }
    }

    /** update_option_visibility: the latch is read and cleared first. */
    method UpdateVisibility(e: Env)
      requires Flags(View())
      modifies this`front, this`answer, this`show, this`force
      ensures View() == Update(old(View()), e)
    {
      var forced := force;
      force := false;
      for k := 0 to GROUPS
        invariant Flags(View())
        invariant View() == UpdateGroups(old(View()).(force := false), e, forced, k)
      {
        VisitGroup(GroupAt(k), e, forced);
      }
    }

    /** core_options_push: the table itself when nothing is amended, else an amended copy. */
    method PushDefinitions()
      modifies this`front
      ensures View() == PushDefs(old(View()))
    {
      var defs := base;
      for i := 0 to |cur|
        invariant defs == Published(base, cur[..i])
      {
        assert cur[..i + 1][..i] == cur[..i];
        if cur[i].idx < |defs| {
          defs := defs[cur[i].idx := Amended(defs[cur[i].idx], cur[i].note)];
        }
      }
      assert cur[..|cur|] == cur;
      if front.v2 {
        front := front.(defs := defs, hidden := {});
      }
    }

    /** explain_repush. */
    method RepushAll(e: Env)
      requires Flags(View())
      modifies this`front, this`answer, this`show, this`force
      ensures View() == Repush(old(View()), e)
    {
      if front.v2 {
        PushDefinitions();
        force := true;
        UpdateVisibility(e);
      }
    }

    /** explain_update, once the new set is computed. */
    method UpdateExplanations(next: seq<Amendment>, e: Env)
      requires Flags(View())
      modifies this
      ensures View() == ExplainUpdate(old(View()), next, e)
    {
      if next != cur {
        cur, pushed := next, next != [];
        RepushAll(e);
      }
    }

    /** netlink_rebuild_host_options. */
    method RebuildHostOptions(peers: seq<Peer>, voiceModem: bool, e: Env)
      requires Flags(View()) && HostReady(View())
      modifies this
      ensures View() == Rebuild(old(View()), peers, voiceModem, e)
    {
      var h := Find(base, HOST_KEY);
      if !presetsValid {
        presets, presetsValid := base[h].values[..3], true;
      }
      var values := BuildHostList(presets, peers, voiceModem);
      base := base[h := base[h].(values := values)];
      PushDefinitions();
      force := true;
      UpdateVisibility(e);
    }

    /** retro_unload_game: the explanations are withdrawn by one more push if they were sent. */
    method UnloadGame(e: Env, later: Env)
      requires Flags(View())
      modifies this
      ensures View() == Unload(old(View()), e, later)
    {
      UpdateVisibility(e);
      var restore := pushed;
      cur, pushed := [], false;
      if restore {
        RepushAll(later);
      }
      show := show[Inputs := true][CdOnly := true][CartOnly := true];
    }

    /** retro_deinit. */
    method Shutdown()
      requires HostIndex(View()) < |base|
      modifies this
      ensures View() == Deinit(old(View()))
    {
      if presetsValid {
        var h := Find(base, HOST_KEY);
        base := base[h := base[h].(values := presets)];
      }
      show, force := AllShown(), false;
      cur, pushed, answer := [], false, Unasked;
    }
  }

  /** The value list of the host option: first preset, a row per peer, the other presets. */
  method BuildHostList(presets: seq<Value>, peers: seq<Peer>, voiceModem: bool) returns (values: seq<Value>)
    requires |presets| == 3
    ensures values == HostValues(presets, peers, voiceModem)
  {
    values := [presets[0]];
    var listed := Listed(peers);
    for i := 0 to |listed|
      invariant values == [presets[0]] + PeerRows(listed[..i], voiceModem)
    {
      assert listed[..i + 1][..i] == listed[..i];
      values := values + [PeerRow(listed[i], voiceModem)];
    }
    assert listed[..|listed|] == listed;
    values := values + [presets[1], presets[2]];
  }
}
