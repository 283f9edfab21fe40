/** The save-RAM buffer handed to the frontend (libretro.c): two EEPROM banks of 64 big-endian
  * words, then, for CD content, the 128 KB Memory Track image.  The EEPROM part is repacked on
  * every EEPROM write, but not on an erase, a reset or a state load; the Memory Track part only
  * when it is next looked at, behind a dirty flag. */
module SaveRam {
  import opened Common

  newtype word = x: int | 0 <= x < 65536

  const WORDS := 64
  const EEPROM_SAVE_SIZE := 128
  const MT_SAVE_OFFSET := 256
  const MT_SAVE_SIZE := 0x20000
  const CD_SAVE_SIZE := 0x20100

  // ---------------------------------------------------------------- packing

  /** High byte first. */
  function Pack(bank: seq<word>): (b: seq<byte>)
    ensures |b| == 2 * |bank|
  {
    seq(2 * |bank|, k requires 0 <= k < 2 * |bank| =>
      if k % 2 == 0 then (bank[k / 2] / 256) as byte else (bank[k / 2] % 256) as byte)
  }

  function Unpack(b: seq<byte>): (bank: seq<word>)
    requires |b| % 2 == 0
    ensures |bank| == |b| / 2
  {
    seq(|b| / 2, i requires 0 <= i < |b| / 2 => b[2 * i] as word * 256 + b[2 * i + 1] as word)
  }

  /** Packing and unpacking a bank are mutually inverse. */
  lemma PackUnpack(bank: seq<word>, b: seq<byte>)
    requires |b| % 2 == 0
    ensures Unpack(Pack(bank)) == bank
    ensures Pack(Unpack(b)) == b
  {
    forall i | 0 <= i < |bank| ensures Unpack(Pack(bank))[i] == bank[i] {
      assert Pack(bank)[2 * i] == (bank[i] / 256) as byte;
      assert Pack(bank)[2 * i + 1] == (bank[i] % 256) as byte;
    }
    forall k | 0 <= k < |b| ensures Pack(Unpack(b))[k] == b[k] {
      assert k == 2 * (k / 2) + k % 2;
      assert Unpack(b)[k / 2] == b[2 * (k / 2)] as word * 256 + b[2 * (k / 2) + 1] as word;
    }
  }

  /** Different banks pack differently: nothing the frontend stores is ambiguous. */
  lemma PackInjective(a: seq<word>, b: seq<word>)
    requires Pack(a) == Pack(b)
    ensures a == b
  {
    PackUnpack(a, []);
    PackUnpack(b, []);
  }

  // ---------------------------------------------------------------- the session

  /** A six-bit EEPROM address. */
  type Index = i: int | 0 <= i < WORDS

  type Bank = b: seq<word> | |b| == WORDS witness seq(WORDS, _ => 0)
  type Track = b: seq<byte> | |b| == MT_SAVE_SIZE witness seq(MT_SAVE_SIZE, _ => 0)
  type Buffer = b: seq<byte> | |b| == CD_SAVE_SIZE witness seq(CD_SAVE_SIZE, _ => 0)

  const BLANK: word := 0xFFFF

  /** What CDROMReset puts into the CD unit's EEPROM. */
  function Factory(): Bank {
    [0x0024, 0x0004, 0x0071, 0xFF67, 0x892F, 0x8000] + seq(WORDS - 6, _ => BLANK)
  }

  /** The flash part's command register and the state of its unlock sequence. */
  datatype Command = NoCommand | ProductId | WriteEnable
  datatype Phase = Idle | Phase1 | Phase2

  /** `writes`: the cartridge EEPROM's write-enable latch.  `mtCart`: the cartridge is itself a
    * Memory Track, whose memory is handed out directly. */
  datatype State = State(cart: Bank, cd: Bank, mt: Track, buf: Buffer, dirty: bool, writes: bool,
                         cdMode: bool, mtCart: bool, needsUnpack: bool, command: Command, phase: Phase)

  /** eeprom_pack_save_buf. */
  function PackAll(s: State): State {
    var eeproms := Pack(s.cart) + Pack(s.cd);
    if s.cdMode then s.(buf := eeproms + s.mt, dirty := false)
    else s.(buf := eeproms + s.buf[MT_SAVE_OFFSET..])
  }

  /** mt_flush_save_buf. */
  function Flush(s: State): State {
    if s.dirty then s.(buf := s.buf[..MT_SAVE_OFFSET] + s.mt, dirty := false) else s
  }

  /** The banks as the buffer has them. */
  function SavedCart(s: State): Bank { Unpack(s.buf[..EEPROM_SAVE_SIZE]) }

  function SavedCd(s: State): Bank { Unpack(s.buf[EEPROM_SAVE_SIZE..MT_SAVE_OFFSET]) }

  function SavedTrack(s: State): Track { s.buf[MT_SAVE_OFFSET..] }

  /** The first-frame block of retro_run: eeprom_unpack_save_buf, once, unless the frontend wrote
    * into the Memory Track itself. */
  function FirstUnpack(s: State): State {
    if !s.needsUnpack then s
    else if s.mtCart then s.(needsUnpack := false)
    else
      s.(needsUnpack := false, cart := SavedCart(s), cd := SavedCd(s), mt := if s.cdMode then SavedTrack(s) else s.mt)
  }

  // ---------------------------------------------------------------- the Memory Track on the bus

  const MT_DATA_BASE := 0x900000
  const MT_DATA_END := 0x920000
  const MT_CMD_UNLOCK1 := 0x815554
  const MT_CMD_UNLOCK2 := 0x80AAA8

  predicate InWindow(addr: nat) { MT_DATA_BASE <= addr < MT_DATA_END }

  /** MTStateMachine; `first` for a write to the first unlock address. */
  function CommandWrite(s: State, first: bool, w: word): State {
    match s.phase
    case Idle => if first && w == 0xAA then s.(phase := Phase1) else s
    case Phase1 => s.(phase := if !first && w == 0x55 then Phase2 else Idle)
    case Phase2 =>
      if !first then s.(phase := Idle)
      else s.(phase := Idle, command := if w == 0x90 then ProductId else if w == 0xA0 then WriteEnable else NoCommand)
  }

  function TrackWord(s: State, addr: nat, w: word): State {
    if InWindow(addr) then
      var off := (addr - MT_DATA_BASE) / 2 * 2;
      if s.command.WriteEnable? then
        s.(mt := s.mt[off := (w / 256) as byte][off + 1 := (w % 256) as byte], dirty := true)
      else s
    else if addr == MT_CMD_UNLOCK1 || addr == MT_CMD_UNLOCK2 then CommandWrite(s, addr == MT_CMD_UNLOCK1, w)
    else s
  }

  function TrackByte(s: State, addr: nat, b: byte): State {
    if InWindow(addr) then
      if s.command.WriteEnable? then s.(mt := s.mt[addr - MT_DATA_BASE := b], dirty := true) else s
    else if addr == MT_CMD_UNLOCK1 || addr == MT_CMD_UNLOCK2 then TrackWord(s, addr, b as word)
    else s
  }

  /** Only an armed part takes data: three writes, in order and with nothing else written to the
    * two unlock addresses in between, arm an idle one, whatever it was told before. */
  lemma UnlockArms(s: State, addr: nat, b: byte)
    requires s.phase.Idle? && InWindow(addr)
    ensures var two := TrackByte(TrackByte(s, 0x815554, 0xAA), 0x80AAA8, 0x55);
      var t := TrackByte(two, 0x815554, 0xA0);
      TrackByte(t, addr, b) == t.(mt := s.mt[addr - MT_DATA_BASE := b], dirty := true)
    ensures !s.command.WriteEnable? ==> TrackByte(s, addr, b) == s
  {
  }

  // ---------------------------------------------------------------- runs

  /** What the frontend reads and writes through the pointer and size it is given. */
  function Exposed(s: State): seq<byte> {
    if s.mtCart then s.mt else if s.cdMode then s.buf else s.buf[..EEPROM_SAVE_SIZE]
  }

  /** The save that belongs to the live memories. */
  function Whole(s: State): seq<byte> {
    if s.mtCart then s.mt else if s.cdMode then Pack(s.cart) + Pack(s.cd) + s.mt else Pack(s.cart)
  }

  /** The decoded commands of both EEPROMs, Memory Track writes, and what the frontend does.  The
    * CD unit's EEPROM takes erases only: its write command never stores. */
  datatype Event =
    | EnableWrites
    | DisableWrites
    | WriteWord(i: Index, v: word)
    | WriteAll(v: word)
    | EraseWord(i: Index)
    | EraseAll
    | EraseCdWord(i: Index)
    | WriteTrackByte(addr: nat, b: byte)
    | WriteTrackWord(addr: nat, w: word)
    | Reset                            // retro_reset, and the boot of an inserted disc
    | LoadState(cart: Bank, cd: Bank, mt: Track, writes: bool, command: Command, phase: Phase)
    | FrameStart
    | FrameEnd
    | GetMemoryData
    | FrontendFills(save: seq<byte>)   // the .srm copied in, after load and before the first frame

  function Next(s: State, e: Event): State {
    match e
    case EnableWrites => s.(writes := true)
    case DisableWrites => s.(writes := false)
    case WriteWord(i, v) => if s.writes then PackAll(s.(cart := s.cart[i := v])) else s
    case WriteAll(v) => if s.writes then PackAll(s.(cart := seq(WORDS, _ => v))) else s
    case EraseWord(i) => if s.writes then s.(cart := s.cart[i := BLANK]) else s
    case EraseAll => if s.writes then s.(cart := seq(WORDS, _ => BLANK)) else s
    case EraseCdWord(i) => s.(cd := s.cd[i := BLANK])
    case WriteTrackByte(addr, b) => TrackByte(s, addr, b)
    case WriteTrackWord(addr, w) => TrackWord(s, addr, w)
    case Reset => s.(cd := Factory(), writes := false, command := NoCommand, phase := Idle)
    case LoadState(cart, cd, mt, writes, command, phase) =>
      s.(cart := cart, cd := cd, mt := mt, writes := writes, command := command, phase := phase)
    case FrameStart => FirstUnpack(s)
    case FrameEnd => Flush(s)
    case GetMemoryData => if s.mtCart then s else Flush(s)
    case FrontendFills(b) =>
      if !(s.needsUnpack && |b| == |Exposed(s)|) then s
      else if s.mtCart then s.(mt := b)
      else s.(buf := b + s.buf[|b|..])
  }

  function Exec(s: State, run: seq<Event>): State {
    if run == [] then s else Next(Exec(s, run[..|run|-1]), run[|run|-1])
  }

  // ---------------------------------------------------------------- what was not packed

  /** The write-enable latch after a run that began with it at w. */
  function WritesOn(run: seq<Event>, w: bool): bool {
    if run == [] then w
    else match run[|run|-1]
      case EnableWrites => true
      case DisableWrites => false
      case Reset => false
      case LoadState(_, _, _, writes, _, _) => writes
      case _ => WritesOn(run[..|run|-1], w)
  }

  function Every(b: Bank): map<nat, word> { map i: nat | i < WORDS :: b[i] }

  predicate Packs(e: Event, on: bool) { (e.WriteWord? || e.WriteAll?) && on }

  function CartStep(unsaved: map<nat, word>, e: Event, on: bool): map<nat, word> {
    if Packs(e, on) then map[]
    else match e
      case EraseWord(i) => if on then unsaved[i := BLANK] else unsaved
      case EraseAll => if on then Every(seq(WORDS, _ => BLANK)) else unsaved
      case LoadState(cart, _, _, _, _, _) => Every(cart)
      case _ => unsaved
  }

  function CdStep(unsaved: map<nat, word>, e: Event, on: bool): map<nat, word> {
    if Packs(e, on) then map[]
    else match e
      case EraseCdWord(i) => unsaved[i := BLANK]
      case Reset => Every(Factory())
      case LoadState(_, cd, _, _, _, _) => Every(cd)
      case _ => unsaved
  }

  /** The cartridge words changed since the last pack without one, and to what. */
  function CartUnsaved(run: seq<Event>, w: bool): map<nat, word> {
    if run == [] then map[]
    else CartStep(CartUnsaved(run[..|run|-1], w), run[|run|-1], WritesOn(run[..|run|-1], w))
  }

  /** The same for the CD unit's words. */
  function CdUnsaved(run: seq<Event>, w: bool): map<nat, word> {
    if run == [] then map[]
    else CdStep(CdUnsaved(run[..|run|-1], w), run[|run|-1], WritesOn(run[..|run|-1], w))
  }

  function TrackStep(unsaved: Option<Track>, s: State, e: Event): Option<Track> {
    if Packs(e, s.writes) || Next(s, e).dirty then None
    else if e.LoadState? then Some(e.mt)
    else unsaved
  }

  /** The Memory Track of the last state loaded, if nothing has copied it or marked it since. */
  function TrackUnsaved(s: State, run: seq<Event>): Option<Track> {
    if run == [] then None
    else TrackStep(TrackUnsaved(s, run[..|run|-1]), Exec(s, run[..|run|-1]), run[|run|-1])
  }

  /** The buffer happens to hold what was not packed. */
  ghost predicate HoldsWords(saved: Bank, unsaved: map<nat, word>) {
    forall i: nat :: i < WORDS && i in unsaved ==> saved[i] == unsaved[i]
  }

  // ---------------------------------------------------------------- coherence

  ghost predicate EepromsCoherent(s: State) {
    s.buf[..MT_SAVE_OFFSET] == Pack(s.cart) + Pack(s.cd)
  }

  /** Word by word: what a run left in a bank. */
  ghost predicate Follows(live: Bank, saved: Bank, unsaved: map<nat, word>) {
    forall i: nat :: i < WORDS ==> live[i] == if i in unsaved then unsaved[i] else saved[i]
  }

  lemma FollowsExactly(live: Bank, saved: Bank, unsaved: map<nat, word>)
    requires Follows(live, saved, unsaved)
    ensures live == saved <==> HoldsWords(saved, unsaved)
  {
    if HoldsWords(saved, unsaved) {
      assert forall i: nat :: i < WORDS ==> live[i] == saved[i];
    }
  }

  /** After a pack, and only then, the buffer has the banks. */
  lemma PackedBanks(s: State)
    ensures EepromsCoherent(s) <==> SavedCart(s) == s.cart && SavedCd(s) == s.cd
    ensures SavedCart(s) == s.cart <==> s.buf[..EEPROM_SAVE_SIZE] == Pack(s.cart)
    ensures SavedCd(s) == s.cd <==> s.buf[EEPROM_SAVE_SIZE..MT_SAVE_OFFSET] == Pack(s.cd)
  {
    var c, d := s.buf[..EEPROM_SAVE_SIZE], s.buf[EEPROM_SAVE_SIZE..MT_SAVE_OFFSET];
    PackUnpack(s.cart, c);
    PackUnpack(s.cd, d);
    assert s.buf[..MT_SAVE_OFFSET] == c + d;
    if EepromsCoherent(s) {
      assert c == (c + d)[..EEPROM_SAVE_SIZE] == Pack(s.cart) && d == (c + d)[EEPROM_SAVE_SIZE..] == Pack(s.cd);
    }
  }

  lemma PackSaves(u: State)
    ensures var t := PackAll(u); SavedCart(t) == u.cart && SavedCd(t) == u.cd && (u.cdMode ==> SavedTrack(t) == u.mt)
  {
    var t := PackAll(u);
    assert t.buf[..EEPROM_SAVE_SIZE] == Pack(u.cart) && t.buf[EEPROM_SAVE_SIZE..MT_SAVE_OFFSET] == Pack(u.cd);
    assert u.cdMode ==> t.buf[MT_SAVE_OFFSET..] == u.mt;
    PackedBanks(t);
  }

  lemma FlushSaves(s: State)
    ensures var t := Flush(s);
      SavedCart(t) == SavedCart(s) && SavedCd(t) == SavedCd(s) && !t.dirty && (s.dirty ==> SavedTrack(t) == s.mt)
  {
    var t := Flush(s);
    assert t.buf[..EEPROM_SAVE_SIZE] == s.buf[..EEPROM_SAVE_SIZE];
    assert t.buf[EEPROM_SAVE_SIZE..MT_SAVE_OFFSET] == s.buf[EEPROM_SAVE_SIZE..MT_SAVE_OFFSET];
    assert s.dirty ==> t.buf[MT_SAVE_OFFSET..] == s.mt;
  }

  /** What every event keeps of the session, and does not touch behind the buffer's back. */
  lemma StepKeeps(s: State, e: Event)
    requires !s.needsUnpack
    ensures var t := Next(s, e);
      && !t.needsUnpack && t.cdMode == s.cdMode && t.mtCart == s.mtCart
      && t.writes == WritesOn([e], s.writes)
  {
    assert [e][..0] == [];
  }

  lemma WritesPlus(run: seq<Event>, w: bool)
    requires run != []
    ensures WritesOn(run, w) == WritesOn([run[|run|-1]], WritesOn(run[..|run|-1], w))
  {
    assert [run[|run|-1]][..0] == [];
  }

  lemma {:induction false} RunKeeps(s: State, run: seq<Event>)
    requires !s.needsUnpack
    ensures var t := Exec(s, run);
      && !t.needsUnpack && t.cdMode == s.cdMode && t.mtCart == s.mtCart && t.writes == WritesOn(run, s.writes)
  {
    if run != [] {
      RunKeeps(s, run[..|run|-1]);
      StepKeeps(Exec(s, run[..|run|-1]), run[|run|-1]);
      WritesPlus(run, s.writes);
    }
  }

  /** An event that is neither a pack nor a flush nor an unpack leaves the buffer alone. */
  lemma BufferStays(s: State, e: Event)
    requires !s.needsUnpack && !((e.WriteWord? || e.WriteAll?) && s.writes)
    ensures SavedCart(Next(s, e)) == SavedCart(s) && SavedCd(Next(s, e)) == SavedCd(s)
    ensures !e.FrameEnd? && !e.GetMemoryData? ==> Next(s, e).buf == s.buf
  {
    if e.FrameEnd? || e.GetMemoryData? {
      FlushSaves(s);
    }
  }

  lemma WriteSaves(s: State, e: Event)
    requires Packs(e, s.writes)
    ensures var t := Next(s, e);
      SavedCart(t) == t.cart && SavedCd(t) == t.cd && (s.cdMode ==> SavedTrack(t) == t.mt)
  {
    PackSaves(if e.WriteWord? then s.(cart := s.cart[e.i := e.v]) else s.(cart := seq(WORDS, _ => e.v)));
  }

  lemma CartChanges(s: State, e: Event, saved: Bank, u: map<nat, word>)
    requires !s.needsUnpack && !Packs(e, s.writes) && Follows(s.cart, saved, u)
    ensures Follows(Next(s, e).cart, saved, CartStep(u, e, s.writes))
  {
  }

  lemma CdChanges(s: State, e: Event, saved: Bank, u: map<nat, word>)
    requires !s.needsUnpack && !Packs(e, s.writes) && Follows(s.cd, saved, u)
    ensures Follows(Next(s, e).cd, saved, CdStep(u, e, s.writes))
  {
  }

  lemma CartFollows(s: State, e: Event, u: map<nat, word>)
    requires !s.needsUnpack && Follows(s.cart, SavedCart(s), u)
    ensures Follows(Next(s, e).cart, SavedCart(Next(s, e)), CartStep(u, e, s.writes))
  {
    if Packs(e, s.writes) {
      WriteSaves(s, e);
    } else {
      BufferStays(s, e);
      CartChanges(s, e, SavedCart(s), u);
    }
  }

  lemma CdFollows(s: State, e: Event, u: map<nat, word>)
    requires !s.needsUnpack && Follows(s.cd, SavedCd(s), u)
    ensures Follows(Next(s, e).cd, SavedCd(Next(s, e)), CdStep(u, e, s.writes))
  {
    if Packs(e, s.writes) {
      WriteSaves(s, e);
    } else {
      BufferStays(s, e);
      CdChanges(s, e, SavedCd(s), u);
    }
  }

  /** Over every run: each word of a bank is the buffer's, unless an erase, a reset or a state load
    * has changed it since the last pack, and then it is what that left. */
  lemma {:induction false} BanksFollow(s: State, run: seq<Event>)
    requires !s.needsUnpack && SavedCart(s) == s.cart && SavedCd(s) == s.cd
    ensures var t := Exec(s, run);
      Follows(t.cart, SavedCart(t), CartUnsaved(run, s.writes)) && Follows(t.cd, SavedCd(t), CdUnsaved(run, s.writes))
  {
    if run != [] {
      var past := run[..|run|-1];
      BanksFollow(s, past);
      RunKeeps(s, past);
      CartFollows(Exec(s, past), run[|run|-1], CartUnsaved(past, s.writes));
      CdFollows(Exec(s, past), run[|run|-1], CdUnsaved(past, s.writes));
    }
  }

  ghost predicate TrackIs(s: State, u: Option<Track>) {
    s.dirty || s.mt == if u.Some? then u.value else SavedTrack(s)
  }

  lemma TrackStepFollows(s: State, e: Event, u: Option<Track>)
    requires !s.needsUnpack && s.cdMode && TrackIs(s, u) && (s.dirty ==> u == None)
    ensures TrackIs(Next(s, e), TrackStep(u, s, e))
  {
    if Packs(e, s.writes) {
      WriteSaves(s, e);
    } else if e.FrameEnd? || e.GetMemoryData? {
      FlushSaves(s);
    } else {
      BufferStays(s, e);
    }
  }

  /** Over every run: unless the dirty flag is set, the Memory Track part is the part's memory, or
    * a state load replaced that memory with the flag down. */
  lemma {:induction false} TrackFollows(s: State, run: seq<Event>)
    requires !s.needsUnpack && s.cdMode && SavedTrack(s) == s.mt
    ensures TrackIs(Exec(s, run), TrackUnsaved(s, run))
  {
    if run != [] {
      var past := run[..|run|-1];
      TrackFollows(s, past);
      RunKeeps(s, past);
      DirtyIsMarked(s, past);
      TrackStepFollows(Exec(s, past), run[|run|-1], TrackUnsaved(s, past));
    }
  }

  lemma UnpackCoheres(s: State)
    requires s.needsUnpack
    ensures var t := FirstUnpack(s);
      && !t.needsUnpack && t.writes == s.writes && t.cdMode == s.cdMode && t.mtCart == s.mtCart
      && (!s.mtCart ==> SavedCart(t) == t.cart && SavedCd(t) == t.cd && (s.cdMode ==> SavedTrack(t) == t.mt))
  {
  }

  /** From the first frame on, over every run: the EEPROM part of the buffer equals both banks if
    * and only if the buffer already holds every word that was changed without a pack; and for CD
    * content its Memory Track part equals the part's memory, or the dirty flag is set, if and
    * only if no state load replaced that memory since it was last copied or marked, or the buffer
    * already holds the replacement. */
  lemma CoherentAfterUnpack(s: State, run: seq<Event>)
    requires s.needsUnpack && !s.mtCart
    ensures var t := Exec(FirstUnpack(s), run);
      && (EepromsCoherent(t) <==>
            HoldsWords(SavedCart(t), CartUnsaved(run, s.writes)) && HoldsWords(SavedCd(t), CdUnsaved(run, s.writes)))
      && (s.cdMode ==>
            ((t.dirty || SavedTrack(t) == t.mt) <==>
               (TrackUnsaved(FirstUnpack(s), run).Some? ==> SavedTrack(t) == TrackUnsaved(FirstUnpack(s), run).value)))
  {
    var u := FirstUnpack(s);
    var t := Exec(u, run);
    UnpackCoheres(s);
    BanksFollow(u, run);
    FollowsExactly(t.cart, SavedCart(t), CartUnsaved(run, s.writes));
    FollowsExactly(t.cd, SavedCd(t), CdUnsaved(run, s.writes));
    PackedBanks(t);
    if s.cdMode {
      TrackFollows(u, run);
      DirtyIsMarked(u, run);
    }
  }

  lemma DirtyIsMarked(s: State, run: seq<Event>)
    ensures Exec(s, run).dirty ==> TrackUnsaved(s, run).None?
  {
  }

  /** Commands that change a memory without telling the buffer. */
  predicate Silent(e: Event) {
    e.EraseWord? || e.EraseAll? || e.EraseCdWord? || e.Reset? || e.LoadState?
  }

  lemma {:induction false} NothingUnsaved(s: State, run: seq<Event>, w: bool)
    requires forall e :: e in run ==> !Silent(e)
    ensures CartUnsaved(run, w) == map[] && CdUnsaved(run, w) == map[] && TrackUnsaved(s, run) == None
  {
    if run != [] {
      var past := run[..|run|-1];
      assert run[|run|-1] in run && forall e :: e in past ==> e in run;
      NothingUnsaved(s, past, w);
    }
  }

  /** So EEPROM writes, Memory Track writes, frames and queries, in any order, keep it coherent. */
  lemma WritesStayCoherent(s: State, run: seq<Event>)
    requires s.needsUnpack && !s.mtCart && forall e :: e in run ==> !Silent(e)
    ensures var t := Exec(FirstUnpack(s), run);
      EepromsCoherent(t) && (s.cdMode ==> t.dirty || SavedTrack(t) == t.mt)
  {
    NothingUnsaved(FirstUnpack(s), run, s.writes);
    CoherentAfterUnpack(s, run);
  }

  /** What a pointer handed out, or the end of a frame, owes the frontend: everything changed
    * without a pack, as far as this content's save has it, is in the buffer already. */
  ghost predicate NothingMissing(s: State, run: seq<Event>)
    requires s.needsUnpack
  {
    var t, u := Exec(FirstUnpack(s), run), TrackUnsaved(FirstUnpack(s), run);
    s.mtCart
    || (&& HoldsWords(SavedCart(t), CartUnsaved(run, s.writes))
        && (s.cdMode ==> HoldsWords(SavedCd(t), CdUnsaved(run, s.writes)) && (u.Some? ==> SavedTrack(t) == u.value)))
  }

  /** Every pointer handed out and every end of frame, for every kind of content: what the frontend
    * reads is the whole save of the live memories if and only if nothing is missing, and then
    * unpacking it would give those memories back. */
  lemma HandedOutIsWhole(s: State, run: seq<Event>, e: Event)
    requires s.needsUnpack && (e.FrameEnd? || e.GetMemoryData?)
    ensures var t := Exec(FirstUnpack(s), run + [e]);
      && (Exposed(t) == Whole(t) <==> NothingMissing(s, run + [e]))
      && (Exposed(t) == Whole(t) ==>
            var again := FirstUnpack(t.(needsUnpack := true));
            again.cart == t.cart && (s.cdMode ==> again == t))
  {
    var u, all := FirstUnpack(s), run + [e];
    var p, t := Exec(u, run), Exec(u, all);
    assert all[..|run|] == run;
    UnpackCoheres(s);
    RunKeeps(u, run);
    RunKeeps(u, all);
    if !s.mtCart {
      FlushSaves(p);
      BanksFollow(u, all);
      FollowsExactly(t.cart, SavedCart(t), CartUnsaved(all, s.writes));
      FollowsExactly(t.cd, SavedCd(t), CdUnsaved(all, s.writes));
      PackedBanks(t);
      if s.cdMode {
        TrackFollows(u, all);
        WholeByParts(t);
      }
    }
  }

  lemma WholeByParts(t: State)
    requires t.cdMode && !t.mtCart
    ensures Exposed(t) == Whole(t) <==> SavedCart(t) == t.cart && SavedCd(t) == t.cd && SavedTrack(t) == t.mt
  {
    PackedBanks(t);
    var w := Pack(t.cart) + Pack(t.cd);
    assert t.buf == t.buf[..MT_SAVE_OFFSET] + t.buf[MT_SAVE_OFFSET..];
    if t.buf == w + t.mt {
      assert t.buf[..MT_SAVE_OFFSET] == w && t.buf[MT_SAVE_OFFSET..] == t.mt;
    }
  }

  // ---------------------------------------------------------------- what the events leave

  /** A word of the cartridge bank after a run that found `first` in it: the last command that
    * touched it, while writes were enabled, or the last state loaded. */
  function CartWord(run: seq<Event>, enabled: bool, first: word, i: Index): word {
    if run == [] then first
    else
      var past := run[..|run|-1];
      var before, on := CartWord(past, enabled, first, i), WritesOn(past, enabled);
      match run[|run|-1]
      case WriteWord(j, v) => if on && j == i then v else before
      case WriteAll(v) => if on then v else before
      case EraseWord(j) => if on && j == i then 0xFFFF else before
      case EraseAll => if on then 0xFFFF else before
      case LoadState(cart, _, _, _, _, _) => cart[i]
      case _ => before
  }

  /** The same word in the buffer: as it was at the last command that stored something and told. */
  function SavedCartWord(run: seq<Event>, enabled: bool, first: word, i: Index): word {
    if run == [] then first
    else
      var past, e := run[..|run|-1], run[|run|-1];
      if (e.WriteWord? || e.WriteAll?) && WritesOn(past, enabled) then CartWord(run, enabled, first, i)
      else SavedCartWord(past, enabled, first, i)
  }

  /** What a new CD unit has. */
  function FactoryWord(i: Index): word {
    match i
    case 0 => 0x0024 case 1 => 0x0004 case 2 => 0x0071 case 3 => 0xFF67 case 4 => 0x892F case 5 => 0x8000
    case _ => 0xFFFF
  }

  function CdWord(run: seq<Event>, first: word, i: Index): word {
    if run == [] then first
    else
      var before := CdWord(run[..|run|-1], first, i);
      match run[|run|-1]
      case EraseCdWord(j) => if j == i then 0xFFFF else before
      case Reset => FactoryWord(i)
      case LoadState(_, cd, _, _, _, _) => cd[i]
      case _ => before
  }

  function SavedCdWord(run: seq<Event>, enabled: bool, first: word, i: Index): word {
    if run == [] then first
    else
      var past, e := run[..|run|-1], run[|run|-1];
      if (e.WriteWord? || e.WriteAll?) && WritesOn(past, enabled) then CdWord(run, first, i)
      else SavedCdWord(past, enabled, first, i)
  }

  /** A word of the buffer, high byte first. */
  function BufferWord(b: Buffer, k: nat): (w: int)
    requires 2 * k + 1 < CD_SAVE_SIZE
  {
    b[2 * k] as int * 256 + b[2 * k + 1] as int
  }

  lemma BufferWords(s: State, i: Index)
    ensures BufferWord(s.buf, i) == SavedCart(s)[i] as int
    ensures BufferWord(s.buf, WORDS + i) == SavedCd(s)[i] as int
  {
  }

  /** Over every run, word by word and told by the events alone: what the two EEPROMs hold. */
  lemma {:induction false} WordsAreAsTold(s: State, run: seq<Event>, i: Index)
    requires !s.needsUnpack
    ensures Exec(s, run).cart[i] == CartWord(run, s.writes, s.cart[i], i)
    ensures Exec(s, run).cd[i] == CdWord(run, s.cd[i], i)
  {
    if run != [] {
      var past := run[..|run|-1];
      WordsAreAsTold(s, past, i);
      RunKeeps(s, past);
      WordStep(Exec(s, past), run[|run|-1], i);
    }
  }

  /** And what the frontend's buffer holds of them, high byte first. */
  lemma {:induction false} BufferIsAsTold(s: State, run: seq<Event>, i: Index)
    requires !s.needsUnpack && SavedCart(s) == s.cart && SavedCd(s) == s.cd
    ensures var b := Exec(s, run).buf;
      && BufferWord(b, i) == SavedCartWord(run, s.writes, s.cart[i], i) as int
      && BufferWord(b, WORDS + i) == SavedCdWord(run, s.writes, s.cd[i], i) as int
  {
    BufferWords(Exec(s, run), i);
    if run != [] {
      var past, e := run[..|run|-1], run[|run|-1];
      BufferIsAsTold(s, past, i);
      RunKeeps(s, past);
      BufferWords(Exec(s, past), i);
      if Packs(e, Exec(s, past).writes) {
        WriteSaves(Exec(s, past), e);
        WordsAreAsTold(s, run, i);
      } else {
        BufferStays(Exec(s, past), e);
      }
    }
  }

  lemma WordStep(s: State, e: Event, i: Index)
    requires !s.needsUnpack
    ensures Next(s, e).cart[i] == CartWord([e], s.writes, s.cart[i], i)
    ensures Next(s, e).cd[i] == CdWord([e], s.cd[i], i)
  {
    assert [e][..0] == [];
  }

  /** A write to the Memory Track's window while the part is armed; at which byte, and what it puts
    * there. */
  function TrackStore(s: State, e: Event, k: nat): Option<byte> {
    if s.command != WriteEnable then None
    else match e
      case WriteTrackByte(addr, b) => if addr == 0x900000 + k then Some(b) else None
      case WriteTrackWord(addr, w) =>
        if addr < 0x900000 || (addr - 0x900000) / 2 != k / 2 then None
        else Some(if k % 2 == 0 then (w / 256) as byte else (w % 256) as byte)
      case _ => None
  }

  /** A byte of the Memory Track after a run. */
  function TrackByteTold(s: State, run: seq<Event>, k: nat): byte
    requires k < MT_SAVE_SIZE
  {
    if run == [] then s.mt[k]
    else
      var past, e := run[..|run|-1], run[|run|-1];
      var store := TrackStore(Exec(s, past), e, k);
      if store.Some? then store.value else if e.LoadState? then e.mt[k] else TrackByteTold(s, past, k)
  }

  lemma WordStores(s: State, addr: nat, w: word, k: nat)
    requires k < MT_SAVE_SIZE
    ensures TrackWord(s, addr, w).mt[k] ==
      if s.command == WriteEnable && 0x900000 <= addr && (addr - 0x900000) / 2 == k / 2
      then (if k % 2 == 0 then (w / 256) as byte else (w % 256) as byte)
      else s.mt[k]
  {
    if InWindow(addr) {
      PairOf(addr - MT_DATA_BASE, k);
    }
  }

  lemma ByteStores(s: State, addr: nat, b: byte, k: nat)
    requires k < MT_SAVE_SIZE
    ensures TrackByte(s, addr, b).mt[k] == if s.command == WriteEnable && addr == 0x900000 + k then b else s.mt[k]
  {
  }

  lemma TrackStoreStep(s: State, e: Event, k: nat)
    requires !s.needsUnpack && k < MT_SAVE_SIZE
    ensures var store := TrackStore(s, e, k);
      Next(s, e).mt[k] == if store.Some? then store.value else if e.LoadState? then e.mt[k] else s.mt[k]
  {
    if e.WriteTrackWord? {
      WordStores(s, e.addr, e.w, k);
    } else if e.WriteTrackByte? {
      ByteStores(s, e.addr, e.b, k);
    }
  }

  /** The even address of a word write covers two bytes. */
  lemma PairOf(d: nat, k: nat)
    ensures d / 2 * 2 == k <==> d / 2 == k / 2 && k % 2 == 0
    ensures d / 2 * 2 + 1 == k <==> d / 2 == k / 2 && k % 2 == 1
  {
  }

  /** A byte stored marks the buffer. */
  lemma StoreMarks(s: State, e: Event, k: nat)
    requires k < MT_SAVE_SIZE && TrackStore(s, e, k).Some?
    ensures Next(s, e).dirty
  {
  }

  /** Over every run: each byte of the Memory Track is the one last stored there while the part was
    * armed, or a state load's. */
  lemma {:induction false} TrackIsAsTold(s: State, run: seq<Event>, k: nat)
    requires !s.needsUnpack && k < MT_SAVE_SIZE
    ensures Exec(s, run).mt[k] == TrackByteTold(s, run, k)
  {
    if run != [] {
      TrackIsAsTold(s, run[..|run|-1], k);
      RunKeeps(s, run[..|run|-1]);
      TrackStoreStep(Exec(s, run[..|run|-1]), run[|run|-1], k);
    }
  }

  /** What becomes of the command register in three writes to an idle part: it changes only by the
    * whole sequence, in order and at the right addresses. */
  lemma UnlockExactly(s: State, f1: bool, w1: word, f2: bool, w2: word, f3: bool, w3: word)
    requires s.phase.Idle?
    ensures CommandWrite(CommandWrite(CommandWrite(s, f1, w1), f2, w2), f3, w3).command ==
      if f1 && w1 == 0xAA && !f2 && w2 == 0x55 && f3 then
        if w3 == 0x90 then ProductId else if w3 == 0xA0 then WriteEnable else NoCommand
      else s.command
    ensures f1 && w1 == 0xAA && !f2 && w2 == 0x55 ==>
      CommandWrite(CommandWrite(CommandWrite(s, f1, w1), f2, w2), f3, w3).phase.Idle?
  {
  }

  predicate Unlocks(e: Event) {
    (e.WriteTrackByte? || e.WriteTrackWord?) && e.addr in {0x815554, 0x80AAA8}
  }

  /** The end of every frame and every pointer to the buffer leave nothing marked; asked for the memory
    * of a Memory Track cartridge, which is no part of the buffer, the core does nothing. */
  lemma FlushPoints(s: State)
    ensures !Next(s, FrameEnd).dirty && (!s.mtCart ==> !Next(s, GetMemoryData).dirty)
    ensures s.mtCart ==> Next(s, GetMemoryData) == s
    ensures !s.dirty ==> Next(s, FrameEnd) == s && Next(s, GetMemoryData) == s
  {
  }

  /** What moves the command sequence: writes to the two unlock addresses, a reset, which disarms the
    * part, and a state load; nothing else does. */
  lemma CommandMoves(s: State, e: Event)
    ensures var t := Next(s, e);
      match e
      case Reset => t.command == NoCommand && t.phase == Idle
      case LoadState(_, _, _, _, command, phase) => t.command == command && t.phase == phase
      case WriteTrackByte(addr, b) =>
        addr in {0x815554, 0x80AAA8} ==> t == CommandWrite(s, addr == 0x815554, b as word)
      case WriteTrackWord(addr, w) =>
        addr in {0x815554, 0x80AAA8} ==> t == CommandWrite(s, addr == 0x815554, w)
      case _ => true
    ensures !e.Reset? && !e.LoadState? && !Unlocks(e) ==>
      Next(s, e).command == s.command && Next(s, e).phase == s.phase
  {
  }

  /** The first frame, byte by byte, and once: the memories are what the frontend put into the
    * buffer, unless it wrote into a Memory Track cartridge directly. */
  lemma FirstFrameReads(s: State, i: Index, k: nat)
    requires k < MT_SAVE_SIZE
    ensures var t := Next(s, FrameStart);
      && t == s.(cart := t.cart, cd := t.cd, mt := t.mt, needsUnpack := false)
      && (!s.needsUnpack || s.mtCart ==> t.cart == s.cart && t.cd == s.cd && t.mt == s.mt)
      && (s.needsUnpack && !s.mtCart ==>
            && t.cart[i] as int == BufferWord(s.buf, i) && t.cd[i] as int == BufferWord(s.buf, WORDS + i)
            && t.mt[k] == if s.cdMode then s.buf[MT_SAVE_OFFSET + k] else s.mt[k])
  {
    BufferWords(s, i);
  }

  /** A save the frontend loads reaches the memories at the first frame: the whole of it, for its kind
    * of content. */
  lemma LoadedSaveArrives(s: State, save: seq<byte>, i: Index, k: nat)
    requires s.needsUnpack && k < MT_SAVE_SIZE
    requires |save| == if s.mtCart then MT_SAVE_SIZE else if s.cdMode then CD_SAVE_SIZE else EEPROM_SAVE_SIZE
    ensures var t := Next(Next(s, FrontendFills(save)), FrameStart);
      && (s.mtCart ==> t.mt == save)
      && (!s.mtCart ==> t.cart[i] as int == save[2 * i] as int * 256 + save[2 * i + 1] as int)
      && (!s.mtCart && s.cdMode ==>
            && t.cd[i] as int == save[EEPROM_SAVE_SIZE + 2 * i] as int * 256 + save[EEPROM_SAVE_SIZE + 2 * i + 1] as int
            && t.mt[k] == save[MT_SAVE_OFFSET + k])
  {
    var u := Next(s, FrontendFills(save));
    FirstFrameReads(u, i, k);
    if !s.mtCart {
      assert forall j :: 0 <= j < |save| ==> u.buf[j] == save[j];
    }
  }

  // ---------------------------------------------------------------- runs into the failure

  /** A cartridge whose save has 0x1234 in its first word. */
  function SavedGame(): State {
    State(seq(WORDS, _ => BLANK), Factory(), seq(MT_SAVE_SIZE, _ => 255), [0x12, 0x34] + seq(CD_SAVE_SIZE - 2, _ => 0),
          false, false, false, false, true, NoCommand, Idle)
  }

  /** The game enables writes and erases word 0: the word is blank, and at the end of the frame the
    * frontend still reads the old one. */
  lemma ErasedWordStays()
    ensures var t := Exec(FirstUnpack(SavedGame()), [EnableWrites, EraseWord(0), FrameEnd]);
      t.cart[0] == BLANK && Exposed(t)[..2] == [0x12, 0x34] && Exposed(t) != Whole(t)
  {
    var s, run := SavedGame(), [EnableWrites, EraseWord(0), FrameEnd];
    var u := FirstUnpack(s);
    assert run[..2][..1][..0] == [] && run[..2][..1] == [EnableWrites] && run[..2] == [EnableWrites, EraseWord(0)];
    assert Exec(u, [EnableWrites]) == u.(writes := true);
    var v := Exec(u, run[..2]);
    assert v == u.(writes := true, cart := u.cart[0 := BLANK]);
    assert run[..|run|-1] == run[..2];
    var t := Exec(u, run);
    assert t == v && t.buf == s.buf;
    assert Pack(t.cart)[0] == 255 && Exposed(t)[0] == 0x12;
  }

  /** A state loaded in CD mode replaces the Memory Track, and the frontend goes on reading the old
    * one, also through a pointer it asks for afterwards. */
  lemma LoadedTrackStays(b: Track)
    requires b[0] != 255
    ensures var s := SavedGame().(cdMode := true, buf := seq(CD_SAVE_SIZE, _ => 255));
      var t := Exec(FirstUnpack(s), [LoadState(s.cart, s.cd, b, false, NoCommand, Idle), GetMemoryData]);
      t.mt == b && SavedTrack(t)[0] == 255 && Exposed(t) != Whole(t)
  {
    var s := SavedGame().(cdMode := true, buf := seq(CD_SAVE_SIZE, _ => 255));
    var u, e := FirstUnpack(s), LoadState(s.cart, s.cd, b, false, NoCommand, Idle);
    var run := [e, GetMemoryData];
    assert run[..1][..0] == [] && run[..|run|-1] == [e] && [e][..0] == [];
    assert Exec(u, []) == u;
    var v := Exec(u, [e]);
    assert v == Next(u, e) && !v.dirty && v.buf == s.buf && v.mt == b && v.cdMode && !v.mtCart;
    assert Exec(u, run) == Next(v, GetMemoryData) == v;
    assert SavedTrack(v)[0] == 255;
    WholeByParts(v);
  }

  /** A reset in CD mode puts the factory words back into the CD unit, and the frontend goes on
    * reading the saved ones. */
  lemma ResetBankStays()
    ensures var s := SavedGame().(cdMode := true, buf := seq(CD_SAVE_SIZE, _ => 255));
      var t := Exec(FirstUnpack(s), [Reset, FrameEnd]);
      t.cd[0] == 0x0024 && SavedCd(t)[0] == BLANK && Exposed(t) != Whole(t)
  {
    var s := SavedGame().(cdMode := true, buf := seq(CD_SAVE_SIZE, _ => 255));
    var u := FirstUnpack(s);
    var run := [Reset, FrameEnd];
    assert run[..|run|-1] == [Reset] && [Reset][..0] == [];
    assert Exec(u, []) == u;
    var v := Exec(u, [Reset]);
    assert v == Next(u, Reset) && !v.dirty && v.buf == s.buf && v.cdMode && !v.mtCart;
    assert Exec(u, run) == Next(v, FrameEnd) == v;
    WholeByParts(v);
  }

  // ---------------------------------------------------------------- the buffers

  class Buffers {
    const cart: array<word>
    const cd: array<word>
    const mt: array<byte>
    const buf: array<byte>
    var dirty: bool
    var writes: bool
    var cdMode: bool
    var mtCart: bool
    var needsUnpack: bool
    var command: Command
    var phase: Phase

    ghost predicate Valid()
      reads this
    {
      && cart.Length == cd.Length == WORDS && cart != cd
      && mt.Length == MT_SAVE_SIZE && buf.Length == CD_SAVE_SIZE && mt != buf
    }

    ghost function View(): State
      requires Valid()
      reads this, cart, cd, mt, buf
    {
      State(cart[..], cd[..], mt[..], buf[..], dirty, writes, cdMode, mtCart, needsUnpack, command, phase)
    }

    /** retro_load_game: everything blank, the .srm still to come. */
    constructor (cdMode: bool, mtCart: bool)
      ensures Valid() && fresh(cart) && fresh(cd) && fresh(mt) && fresh(buf)
      ensures !dirty && !writes && this.cdMode == cdMode && this.mtCart == mtCart && needsUnpack
      ensures command == NoCommand && phase == Idle
    {
      cart, cd := new word[WORDS](_ => 65535), new word[WORDS](_ => 65535);
      mt, buf := new byte[MT_SAVE_SIZE](_ => 255), new byte[CD_SAVE_SIZE](_ => 0);
      dirty, writes, this.cdMode, this.mtCart, needsUnpack := false, false, cdMode, mtCart, true;
      command, phase := NoCommand, Idle;
    }

    /** One bank at an offset, high byte first. */
    method PackBank(bank: array<word>, at: nat)
      requires Valid() && bank.Length == WORDS && at + 2 * WORDS <= buf.Length
      modifies buf
      ensures buf[at..at + 2 * WORDS] == Pack(bank[..])
      ensures forall k :: 0 <= k < buf.Length && !(at <= k < at + 2 * WORDS) ==> buf[k] == old(buf[k])
    {
      var i := 0;
      while i < WORDS
        invariant 0 <= i <= WORDS
        invariant forall k :: 0 <= k < 2 * i ==> buf[at + k] == Pack(bank[..])[k]
        invariant forall k :: 0 <= k < buf.Length && !(at <= k < at + 2 * i) ==> buf[k] == old(buf[k])
      {
        buf[at + 2 * i] := (bank[i] / 256) as byte;
        buf[at + 2 * i + 1] := (bank[i] % 256) as byte;
        assert Pack(bank[..])[2 * i] == (bank[i] / 256) as byte;
        assert Pack(bank[..])[2 * i + 1] == (bank[i] % 256) as byte;
        i := i + 1;
      }
    }

    /** memcpy of the Memory Track into the tail of the buffer. */
    method CopyTrack()
      requires Valid()
      modifies buf
      ensures buf[MT_SAVE_OFFSET..] == mt[..] && buf[..MT_SAVE_OFFSET] == old(buf[..MT_SAVE_OFFSET])
    {
      forall k | 0 <= k < MT_SAVE_SIZE {
        buf[MT_SAVE_OFFSET + k] := mt[k];
      }
    }

    /** Both banks, and nothing behind them. */
    method PackBanks()
      requires Valid()
      modifies buf
      ensures buf[..MT_SAVE_OFFSET] == Pack(cart[..]) + Pack(cd[..])
      ensures buf[MT_SAVE_OFFSET..] == old(buf[MT_SAVE_OFFSET..])
    {
      PackBank(cart, 0);
      PackBank(cd, EEPROM_SAVE_SIZE);
      assert buf[..MT_SAVE_OFFSET] == buf[0..EEPROM_SAVE_SIZE] + buf[EEPROM_SAVE_SIZE..MT_SAVE_OFFSET];
    }

    /** eeprom_pack_save_buf. */
    method PackSaveBuf()
      requires Valid()
      modifies this`dirty, buf
      ensures View() == PackAll(old(View()))
    {
      PackBanks();
      if cdMode {
        CopyTrack();
        dirty := false;
      }
      assert buf[..] == buf[..MT_SAVE_OFFSET] + buf[MT_SAVE_OFFSET..];
    }

    /** mt_flush_save_buf. */
    method FlushSaveBuf()
      requires Valid()
      modifies this`dirty, buf
      ensures View() == Flush(old(View()))
    {
      if dirty {
        CopyTrack();
        dirty := false;
        assert buf[..] == buf[..MT_SAVE_OFFSET] + buf[MT_SAVE_OFFSET..];
      }
    }

    /** One bank read back from an offset. */
    method UnpackBank(bank: array<word>, at: nat)
      requires Valid() && bank.Length == WORDS && at + 2 * WORDS <= buf.Length
      modifies bank
      ensures bank[..] == Unpack(buf[at..at + 2 * WORDS])
    {
      var i := 0;
      while i < WORDS
        invariant 0 <= i <= WORDS
        invariant forall k :: 0 <= k < i ==> bank[k] == Unpack(buf[at..at + 2 * WORDS])[k]
      {
        bank[i] := buf[at + 2 * i] as word * 256 + buf[at + 2 * i + 1] as word;
        i := i + 1;
      }
    }

    /** The first-frame block of retro_run. */
    method UnpackOnFirstFrame()
      requires Valid()
      modifies this`needsUnpack, cart, cd, mt
      ensures View() == FirstUnpack(old(View()))
    {
      if !needsUnpack {
        return;
      }
      needsUnpack := false;
      if !mtCart {
        UnpackBank(cart, 0);
        UnpackBank(cd, EEPROM_SAVE_SIZE);
        if cdMode {
          forall k | 0 <= k < MT_SAVE_SIZE {
            mt[k] := buf[MT_SAVE_OFFSET + k];
          }
          assert mt[..] == buf[..][MT_SAVE_OFFSET..];
        }
        assert buf[0..EEPROM_SAVE_SIZE] == buf[..][..EEPROM_SAVE_SIZE];
        assert buf[EEPROM_SAVE_SIZE..MT_SAVE_OFFSET] == buf[..][EEPROM_SAVE_SIZE..MT_SAVE_OFFSET];
      }
    }

    /** A bank filled with one word. */
    method Fill(bank: array<word>, v: word)
      requires bank.Length == WORDS
      modifies bank
      ensures bank[..] == seq(WORDS, _ => v)
    {
      var i := 0;
      while i < WORDS
        invariant 0 <= i <= WORDS && forall k :: 0 <= k < i ==> bank[k] == v
      {
        bank[i] := v;
        i := i + 1;
      }
    }

    /** The commands of the cartridge EEPROM: each write and its callback, and the erases, which
      * have none. */
    method EepromCommand(e: Event)
      requires Valid()
      requires e.EnableWrites? || e.DisableWrites? || e.WriteWord? || e.WriteAll? || e.EraseWord? || e.EraseAll?
      modifies this`dirty, this`writes, cart, buf
      ensures View() == Next(old(View()), e)
    {
      match e
      case EnableWrites => writes := true;
      case DisableWrites => writes := false;
      case WriteWord(i, v) =>
        if writes {
          cart[i] := v;
          PackSaveBuf();
        }
      case WriteAll(v) =>
        if writes {
          Fill(cart, v);
          PackSaveBuf();
        }
      case EraseWord(i) =>
        if writes {
          cart[i] := BLANK;
        }
      case EraseAll =>
        if writes {
          Fill(cart, BLANK);
        }
    }

    /** The erase command of the CD unit's EEPROM. */
    method EraseCd(i: Index)
      requires Valid()
      modifies cd
      ensures View() == Next(old(View()), EraseCdWord(i))
    {
      cd[i] := BLANK;
    }

    /** EepromReset, MTReset and CDROMReset. */
    method ResetParts()
      requires Valid()
      modifies this`writes, this`command, this`phase, cd
      ensures View() == Next(old(View()), Reset)
    {
      writes, command, phase := false, NoCommand, Idle;
      Fill(cd, BLANK);
      cd[0], cd[1], cd[2], cd[3], cd[4], cd[5] := 0x0024, 0x0004, 0x0071, 0xFF67, 0x892F, 0x8000;
      assert cd[..] == Factory();
    }

    /** MTStateMachine. */
    method StateMachine(first: bool, w: word)
      requires Valid()
      modifies this`command, this`phase
      ensures View() == CommandWrite(old(View()), first, w)
    {
      match phase
      case Idle =>
        if first && w == 0xAA {
          phase := Phase1;
        }
      case Phase1 =>
        phase := if !first && w == 0x55 then Phase2 else Idle;
      case Phase2 =>
        if first {
          command := if w == 0x90 then ProductId else if w == 0xA0 then WriteEnable else NoCommand;
        }
        phase := Idle;
    }

    /** MTWriteWord and its callback. */
    method TrackWriteWord(addr: nat, w: word)
      requires Valid()
      modifies this`dirty, this`command, this`phase, mt
      ensures View() == Next(old(View()), WriteTrackWord(addr, w))
    {
      if MT_DATA_BASE <= addr < MT_DATA_END {
        if command.WriteEnable? {
          var off := (addr - MT_DATA_BASE) / 2 * 2;
          mt[off] := (w / 256) as byte;
          mt[off + 1] := (w % 256) as byte;
          dirty := true;
        }
      } else if addr == MT_CMD_UNLOCK1 {
        StateMachine(true, w);
      } else if addr == MT_CMD_UNLOCK2 {
        StateMachine(false, w);
      }
    }

    /** MTWriteByte and its callback. */
    method TrackWriteByte(addr: nat, b: byte)
      requires Valid()
      modifies this`dirty, this`command, this`phase, mt
      ensures View() == Next(old(View()), WriteTrackByte(addr, b))
    {
      if MT_DATA_BASE <= addr < MT_DATA_END {
        if command.WriteEnable? {
          mt[addr - MT_DATA_BASE] := b;
          dirty := true;
        }
      } else if addr == MT_CMD_UNLOCK1 || addr == MT_CMD_UNLOCK2 {
        TrackWriteWord(addr, b as word);
      }
    }
  }
}
