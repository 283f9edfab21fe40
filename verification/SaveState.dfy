/** The versioned savestate codec (retro_serialize and retro_unserialize in libretro.c, the
  * version constants in src/core/state.h).
  *
  * A module is abstract: it has an image of a fixed size; `settle` says what it holds after
  * reading an image (a loader may clamp fields, keep live ones, and look at facts of the session
  * such as the cartridge that is plugged in) and `reset` what its reset leaves.  What is
  * concrete is everything the two functions do around the modules: the order of the chunks,
  * which versions carry each, what a missing one turns into, the magic words, the refusals,
  * the moving cursor, the zero fill, and what one chunk makes another module derive.
  */
module SaveState {
  import opened Common

  type Bytes = seq<byte>

  const STATE_MAGIC := 0x564A5353
  const STATE_VERSION := 17
  const STATE_MIN_VERSION := 1
  const STATE_VERSION_CDROM_RESTRUCTURE := 4
  const STATE_VERSION_DAC_REGISTERS := 8
  const STATE_VERSION_DAC_I2S_RING := 9
  const STATE_SIZE := 0x280000
  const STATE_SIZE_V8 := 0x260000
  const HEADER := 16

  // ---------------------------------------------------------------- the chunk table

  /** In the order in which every version writes them. */
  datatype Chunk =
    | MainRAM | TOMRegisters | JERRYRegisters | LowerField | M68K | GPU | DSP | Blitter | Events
    | EEPROM | JERRY | TOM | CDRegisters | CDSectorHead | CDBufferPosition | CDCommandState
    | CDStagingBuffers | CDEEPROM | CDWorkingSet | DSAQueue | DriveSpeed | LastDSAWord | Joystick
    | MemoryTrack | MemoryTrackOverride | NVMBIOS | DAC | I2SCursors | I2SNonZeroCount | I2SPhase
    | DACRegisters | I2SRing | UART | BusArbiterCarries | BlitterBusyWindow | GameDrive | HiResEpoch
    | InputDevices | Paddle | TeamTap | WireSpeedUp | DiscIdentity | HLECDStream | CDBIOSBoot
    | CDDriveTiming | HungBlitter | SDHandles

  /** How a row is written and read.
    *   Plain     an image of fixed size.
    *   Staging   the dead sector buffers of the original CD-ROM block: only below v4, read over,
    *             and the drive is put back to idle.
    *   Disc      the mounted disc's identity words and the image index.
    *   Tagged    an image that begins with a magic word; without it, reset and step over the word.
    *   Handles   the same, but the whole chunk is stepped over. */
  datatype Kind = Plain | Staging | Disc | Tagged | Handles

  /** One chunk: the first version that carries it; whether a layout that lacks it leaves the
    * live value alone instead of resetting the module; whether it was appended to a version
    * already in use, so that a writer of that version may lack it; whether a pre-v4 CD-ROM
    * block puts it back to idle. */
  datatype Row = Row(chunk: Chunk, since: nat, kind: Kind, kept: bool, late: bool, idled: bool)

  function Always(chunk: Chunk): Row { Row(chunk, 1, Plain, false, false, false) }
  function From(since: nat, chunk: Chunk): Row { Row(chunk, since, Plain, false, false, false) }
  function KeptFrom(since: nat, chunk: Chunk): Row { Row(chunk, since, Plain, true, false, false) }
  function LateFrom(since: nat, chunk: Chunk): Row { Row(chunk, since, Plain, false, true, false) }
  function TaggedFrom(since: nat, chunk: Chunk): Row { Row(chunk, since, Tagged, false, true, false) }

  const ROWS := 47
  const STAGING := 16
  const I2S_PHASE := 29
  const DAC_REGISTERS := 30
  const GAME_DRIVE := 35
  const DISC := 41

  /** The one order in which every version writes its chunks. */
  function TableRow(k: nat): Row {
    match k
    case 0 => Always(MainRAM) case 1 => Always(TOMRegisters) case 2 => Always(JERRYRegisters)
    case 3 => Always(LowerField) case 4 => Always(M68K) case 5 => Always(GPU)
    case 6 => Always(DSP) case 7 => Always(Blitter) case 8 => Always(Events)
    case 9 => Always(EEPROM) case 10 => Always(JERRY) case 11 => Always(TOM)
    case 12 => Row(CDRegisters, 1, Plain, false, false, true)
    case 13 => Always(CDSectorHead)
    case 14 => Row(CDBufferPosition, 1, Plain, false, false, true)
    case 15 => Always(CDCommandState)
    case 16 => Row(CDStagingBuffers, 1, Staging, true, false, false)
    case 17 => KeptFrom(4, CDEEPROM) case 18 => From(4, CDWorkingSet)
    case 19 => From(4, DSAQueue) case 20 => From(5, DriveSpeed) case 21 => From(15, LastDSAWord)
    case 22 => Always(Joystick) case 23 => Always(MemoryTrack)
    case 24 => From(7, MemoryTrackOverride) case 25 => From(7, NVMBIOS)
    case 26 => Always(DAC) case 27 => From(2, I2SCursors) case 28 => From(3, I2SNonZeroCount)
    case 29 => From(2, I2SPhase) case 30 => KeptFrom(8, DACRegisters) case 31 => From(9, I2SRing)
    case 32 => KeptFrom(6, UART) case 33 => From(7, BusArbiterCarries)
    case 34 => From(10, BlitterBusyWindow) case 35 => From(8, GameDrive)
    case 36 => From(11, HiResEpoch) case 37 => From(12, InputDevices)
    case 38 => LateFrom(12, Paddle) case 39 => From(13, TeamTap) case 40 => LateFrom(13, WireSpeedUp)
    case 41 => Row(DiscIdentity, 14, Disc, true, false, false)
    case 42 => TaggedFrom(15, HLECDStream)
    case 43 => Row(CDBIOSBoot, 16, Tagged, true, true, false)
    case 44 => Row(CDDriveTiming, 16, Tagged, true, true, true)
    case 45 => TaggedFrom(16, HungBlitter)
    case _ => Row(SDHandles, 17, Handles, false, true, false)
  }

  /** What the proofs use of the table, row by row. */
  predicate RowInOrder(k: nat, row: Row) {
    && (row.kind.Staging? <==> k == STAGING)
    && (row.kind.Disc? <==> k == DISC)
    && (k == STAGING ==> row.since == 1 && row.kept && !row.idled)
    && (k == DISC ==> STATE_VERSION_CDROM_RESTRUCTURE <= row.since && !row.late && row.kept)
    && (k <= 1 ==> row == Always(row.chunk))
    && (k == I2S_PHASE ==> row == From(2, I2SPhase))
    && (k == DAC_REGISTERS ==> row == KeptFrom(8, DACRegisters))
    && (k > DISC ==> HasMagic(row))
    && row.since <= STATE_VERSION
    && (row.idled && k < STAGING ==> row.kind.Plain? && row.since == 1 && !row.late)
    && (row.idled && k >= STAGING ==> HasMagic(row) && row.kept && row.since >= STATE_VERSION_CDROM_RESTRUCTURE)
  }

  lemma TableIsInOrder(k: nat)
    requires k < ROWS
    ensures RowInOrder(k, TableRow(k))
  {
    if k < 12 {
    } else if k < 24 {
    } else if k < 36 {
    } else {
    }
  }

  /** "Strictly last": from the GameDrive chunk on, whatever a version carries, it also carries
    * everything in front of it, so the tail of every layout is a prefix of the next one's. */
  lemma TailIsAppended(v: nat, k: nat, j: nat)
    requires GAME_DRIVE <= k < j < ROWS && Carried(TableRow(j), v)
    ensures Carried(TableRow(k), v)
  {
    if j <= 40 {
    } else {
      assert TableRow(j).since >= 14;
    }
  }

  /** The order in which retro_unserialize reads the chunks. */
  function ReadPlace(c: Chunk): nat {
    match c
    case MainRAM => 0 case TOMRegisters => 1 case JERRYRegisters => 2 case LowerField => 3 case M68K => 4
    case GPU => 5 case DSP => 6 case Blitter => 7 case Events => 8 case EEPROM => 9 case JERRY => 10
    case TOM => 11 case CDRegisters => 12 case CDSectorHead => 13 case CDBufferPosition => 14
    case CDCommandState => 15 case CDStagingBuffers => 16 case CDEEPROM => 17 case CDWorkingSet => 18
    case DSAQueue => 19 case DriveSpeed => 20 case LastDSAWord => 21 case Joystick => 22
    case MemoryTrack => 23 case MemoryTrackOverride => 24 case NVMBIOS => 25 case DAC => 26
    case I2SCursors => 27 case I2SNonZeroCount => 28 case I2SPhase => 29 case DACRegisters => 30
    case I2SRing => 31 case UART => 32 case BusArbiterCarries => 33 case BlitterBusyWindow => 34
    case GameDrive => 35 case HiResEpoch => 36 case InputDevices => 37 case Paddle => 38 case TeamTap => 39
    case WireSpeedUp => 40 case DiscIdentity => 41 case HLECDStream => 42 case CDBIOSBoot => 43
    case CDDriveTiming => 44 case HungBlitter => 45 case SDHandles => 46
  }

  /** What each version was made for, as the header file says. */
  function FirstVersion(c: Chunk): nat {
    match c
    case I2SCursors | I2SPhase => 2
    case I2SNonZeroCount => 3
    case CDEEPROM | CDWorkingSet | DSAQueue => 4
    case DriveSpeed => 5
    case UART => 6
    case MemoryTrackOverride | NVMBIOS | BusArbiterCarries => 7
    case DACRegisters | GameDrive => 8
    case I2SRing => 9
    case BlitterBusyWindow => 10
    case HiResEpoch => 11
    case InputDevices | Paddle => 12
    case TeamTap | WireSpeedUp => 13
    case DiscIdentity => 14
    case LastDSAWord | HLECDStream => 15
    case CDBIOSBoot | CDDriveTiming | HungBlitter => 16
    case SDHandles => 17
    case _ => 1
  }

  /** Loading a layout without one of these leaves the live value alone. */
  predicate LeftAlone(c: Chunk) {
    c.CDStagingBuffers? || c.CDEEPROM? || c.UART? || c.DACRegisters? || c.DiscIdentity? || c.CDBIOSBoot?
    || c.CDDriveTiming?
  }

  /** These were appended to a version already in use. */
  predicate ExtendedInPlace(c: Chunk) {
    c.Paddle? || c.WireSpeedUp? || c.HLECDStream? || c.CDBIOSBoot? || c.CDDriveTiming? || c.HungBlitter? || c.SDHandles?
  }

  /** What the reader and the version comments make of row k. */
  predicate Agrees(k: nat, row: Row) {
    var c := row.chunk;
    && ReadPlace(c) == k && row.since == FirstVersion(c)
    && (row.kept <==> LeftAlone(c)) && (row.late <==> ExtendedInPlace(c))
    && (row.idled <==> c.CDRegisters? || c.CDBufferPosition? || c.CDDriveTiming?)
    && (row.kind.Staging? <==> c.CDStagingBuffers?)
    && (row.kind.Tagged? <==> c.HLECDStream? || c.CDBIOSBoot? || c.CDDriveTiming? || c.HungBlitter?)
    && (row.kind.Handles? <==> c.SDHandles?)
  }

  lemma EarlyRowsAgree(k: nat)
    requires k < 24
    ensures Agrees(k, TableRow(k))
  {
    if k < 12 {
    } else {
    }
  }

  lemma MiddleRowsAgree(k: nat)
    requires 24 <= k < 36
    ensures Agrees(k, TableRow(k))
  {
  }

  lemma LateRowsAgree(k: nat)
    requires 36 <= k < ROWS
    ensures Agrees(k, TableRow(k))
  {
  }

  /** The table of the writer against the reader's order and the version comments: which chunk
    * stands where, which versions carry it, and what becomes of it in the others. */
  lemma TableAgrees(k: nat, v: nat)
    requires k < ROWS
    ensures Agrees(k, TableRow(k))
    ensures var c := TableRow(k).chunk;
      Carried(TableRow(k), v) <==> FirstVersion(c) <= v && (c.CDStagingBuffers? ==> v <= 3)
  {
    if k < 24 {
      EarlyRowsAgree(k);
    } else if k < 36 {
      MiddleRowsAgree(k);
    } else {
      LateRowsAgree(k);
    }
  }

  /** The version table with any module sizes is a codec the theorems below speak about. */
  lemma TableQualifies(q: Codec)
    requires |q.slots| == ROWS && q.slots[DISC].size == 16
    requires forall k :: 0 <= k < ROWS ==> q.slots[k].row == TableRow(k)
    requires forall k, x, live, b :: 0 <= k < ROWS && |b| == q.slots[k].size ==> |q.settle(k, x, live, b)| == |b|
    requires forall k :: 0 <= k < ROWS && HasMagic(TableRow(k)) ==>
               |q.slots[k].magic| == 4 <= q.slots[k].size && q.slots[k].magic != Zeros(4)
    requires forall k, x, live, b :: 0 <= k < ROWS && HasMagic(TableRow(k)) && |b| == q.slots[k].size ==>
               q.settle(k, x, live, b)[..4] == q.slots[k].magic
    requires forall k, x, live :: k in {38, 40} ==>
               q.settle(k, x, live, Zeros(q.slots[k].size)) == q.reset(k, x, live)
    requires forall x, b :: |q.work(x, b)| == |b|
    requires forall b, registers :: |q.rate(b, registers)| == |b|
    ensures Honest(q)
  {
    forall k | 0 <= k < ROWS ensures RowInOrder(k, q.slots[k].row) {
      TableIsInOrder(k);
    }
    forall k | 0 <= k < ROWS && TableRow(k).late && !HasMagic(TableRow(k)) ensures k in {38, 40} {
      OnlyTwoLate(k);
    }
  }

  lemma OnlyTwoLate(k: nat)
    requires k < ROWS && TableRow(k).late && !HasMagic(TableRow(k))
    ensures k == 38 || k == 40
  {
    if k < 12 {
    } else if k < 24 {
    } else if k < 36 {
    } else {
    }
  }

  /** A row together with its module's size and magic word. */
  datatype Slot = Slot(row: Row, size: nat, magic: Bytes)

  /** Whatever of the session a module's loader or reset looks at. */
  type Facts = string

  /** `settle(k, x, live, b)` is what row k's module holds after reading b over `live`;
    * `reset(k, x, live)` what its reset leaves; `idle(k, b)` the idled drive; `rate(b, registers)`
    * the resampler b with its rate derived from those DAC registers; `work(x, b)` main RAM b with
    * the work flag of the emulated boot ROM; `memcon` the timing TOM's registers stand for. */
  datatype Codec = Codec(slots: seq<Slot>, settle: (nat, Facts, Bytes, Bytes) -> Bytes,
                         reset: (nat, Facts, Bytes) -> Bytes, idle: (nat, Bytes) -> Bytes,
                         rate: (Bytes, Bytes) -> Bytes, work: (Facts, Bytes) -> Bytes,
                         memcon: Bytes -> (int, int))

  /** What the module comments promise the two functions here. */
  ghost predicate Honest(q: Codec) {
    && |q.slots| == ROWS
    && (forall k :: 0 <= k < ROWS ==> RowInOrder(k, q.slots[k].row))
    && (forall k, x, live, b :: 0 <= k < ROWS && |b| == q.slots[k].size ==> |q.settle(k, x, live, b)| == |b|)
    && q.slots[DISC].size == 16
    && (forall k :: 0 <= k < ROWS && HasMagic(q.slots[k].row) ==>
          |q.slots[k].magic| == 4 <= q.slots[k].size && q.slots[k].magic != Zeros(4))
    && (forall k, x, live, b :: 0 <= k < ROWS && HasMagic(q.slots[k].row) && |b| == q.slots[k].size ==>
          q.settle(k, x, live, b)[..4] == q.slots[k].magic)
    && (forall k, x, live :: 0 <= k < ROWS && q.slots[k].row.late && !HasMagic(q.slots[k].row) ==>
          q.settle(k, x, live, Zeros(q.slots[k].size)) == q.reset(k, x, live))
    && (forall x, b :: |q.work(x, b)| == |b|)
    && (forall b, registers :: |q.rate(b, registers)| == |b|)
  }

  predicate HasMagic(row: Row) { row.kind.Tagged? || row.kind.Handles? }

  predicate Carried(row: Row, v: nat) {
    row.since <= v && (row.kind.Staging? ==> v < STATE_VERSION_CDROM_RESTRUCTURE)
  }

  // ---------------------------------------------------------------- little-endian words

  predicate IsWord(n: int) { 0 <= n < 0x1_0000_0000 }

  function Word(n: int): (b: Bytes)
    requires IsWord(n)
    ensures |b| == 4
  {
    [(n % 256) as byte, (n / 256 % 256) as byte, (n / 65536 % 256) as byte, (n / 16777216) as byte]
  }

  function WordAt(b: Bytes, i: nat): (n: int)
    requires i + 4 <= |b|
    ensures IsWord(n)
  {
    b[i] as int + b[i+1] as int * 256 + b[i+2] as int * 65536 + b[i+3] as int * 16777216
  }

  lemma BytesOfWord(n: int)
    requires IsWord(n)
    ensures n == n % 256 + (n / 256 % 256) * 256 + (n / 65536 % 256) * 65536 + (n / 16777216) * 16777216
  {
    var a := n / 256;
    var b := a / 256;
    assert b == n / 65536 && b / 256 == n / 16777216;
  }

  lemma WordRoundTrip(b: Bytes, i: nat, n: int)
    requires IsWord(n) && i + 4 <= |b| && b[i..i+4] == Word(n)
    ensures WordAt(b, i) == n
  {
    assert b[i] == b[i..i+4][0] && b[i+1] == b[i..i+4][1] && b[i+2] == b[i..i+4][2] && b[i+3] == b[i..i+4][3];
    BytesOfWord(n);
  }

  function Zeros(n: nat): (z: Bytes)
    ensures |z| == n && forall i :: 0 <= i < n ==> z[i] == 0
  {
    seq(n, _ => 0)
  }

  // ---------------------------------------------------------------- machine and mounted disc

  /** What is mounted or plugged in while the call runs: never part of the state. */
  datatype Mount = Mount(cdMode: bool, sessions: int, tracks: int, sectors: int, images: nat, facts: Facts)

  predicate MountOk(d: Mount) {
    IsWord(d.sessions) && IsWord(d.tracks) && IsWord(d.sectors)
  }

  /** One image per row (those of the staging and disc rows are never looked at), the selected
    * disc image, and the DRAM timing derived from the TOM registers. */
  datatype Machine = Machine(images: seq<Bytes>, diskIndex: int, timing: (int, int))

  predicate Imageless(row: Row) { row.kind.Staging? || row.kind.Disc? }

  /** Every module's image has its size and begins with its magic word, as its writer makes it. */
  ghost predicate Shaped(q: Codec, m: Machine) {
    && |m.images| == |q.slots| && IsWord(m.diskIndex)
    && forall k :: 0 <= k < |q.slots| && !Imageless(q.slots[k].row) ==>
         && |m.images[k]| == q.slots[k].size
         && (HasMagic(q.slots[k].row) ==> 4 <= |m.images[k]| && m.images[k][..4] == q.slots[k].magic)
  }

  /** What module k holds after its chunk and those behind it were read over `live`: the
    * resampler's rate follows the DAC registers. */
  function Taken(q: Codec, x: Facts, live: Bytes, img: seq<Bytes>, k: nat): Bytes
    requires k < |img|
  {
    var b := q.settle(k, x, live, img[k]);
    if k == I2S_PHASE && DAC_REGISTERS < |img| then q.rate(b, img[DAC_REGISTERS]) else b
  }

  /** The last step of an accepted load may set a flag in main RAM. */
  function Marked(q: Codec, x: Facts, k: nat, b: Bytes): Bytes {
    if k == 0 then q.work(x, b) else b
  }

  /** Reading back the image of module k gives it back, in session e over `live`. */
  predicate Restores(q: Codec, e: Mount, live: Machine, m: Machine, k: nat)
    requires k < |m.images| && k < |live.images|
  {
    Marked(q, e.facts, k, Taken(q, e.facts, live.images[k], m.images, k)) == m.images[k]
  }

  function Identity(d: Mount, index: int): (b: Bytes)
    requires MountOk(d) && IsWord(index)
    ensures |b| == 16
  {
    if d.cdMode then Word(d.sessions) + Word(d.tracks) + Word(d.sectors) + Word(index)
    else Word(0) + Word(0) + Word(0) + Word(index)
  }

  /** The bytes each row contributes to a state written now. */
  function ImagesNow(m: Machine, d: Mount): (img: seq<Bytes>)
    requires MountOk(d) && IsWord(m.diskIndex)
    ensures |img| == |m.images|
    ensures forall k :: 0 <= k < |img| && k != DISC ==> img[k] == m.images[k]
    ensures DISC < |img| ==> img[DISC] == Identity(d, m.diskIndex)
  {
    if DISC < |m.images| then m.images[DISC := Identity(d, m.diskIndex)] else m.images
  }

  // ---------------------------------------------------------------- layouts

  /** The payload of the first k rows, as version v writes them. */
  function Payload(slots: seq<Slot>, v: nat, img: seq<Bytes>, k: nat): Bytes
    requires k <= |slots| <= |img|
  {
    if k == 0 then []
    else Payload(slots, v, img, k - 1) + (if Carried(slots[k-1].row, v) then img[k-1] else [])
  }

  function Span(q: Codec, v: nat, k: nat): nat
    requires k <= |q.slots|
  {
    if k == 0 then 0
    else Span(q, v, k - 1) + (if Carried(q.slots[k-1].row, v) then q.slots[k - 1].size else 0)
  }

  /** The fixed sizes hold every layout that declares them. */
  ghost predicate Fits(q: Codec) {
    forall v :: STATE_MIN_VERSION <= v <= STATE_VERSION ==>
      HEADER + Span(q, v, |q.slots|) <= (if v < STATE_VERSION_DAC_I2S_RING then STATE_SIZE_V8 else STATE_SIZE)
  }

  function Header(version: int): (h: Bytes)
    requires IsWord(version)
    ensures |h| == HEADER
  {
    Word(STATE_MAGIC) + Word(version) + Word(0) + Word(0)
  }

  // ---------------------------------------------------------------- the reader

  datatype Reading = Cursor(machine: Machine, pos: nat) | Refused(machine: Machine) | Overrun

  function WithImage(m: Machine, k: nat, b: Bytes): Machine {
    if k < |m.images| then m.(images := m.images[k := b]) else m
  }

  function LiveOf(m: Machine, k: nat): Bytes {
    if k < |m.images| then m.images[k] else []
  }

  /** The idle drive a pre-v4 block leaves behind. */
  function IdleDrive(q: Codec, m: Machine): Machine {
    m.(images := seq(|m.images|, k requires 0 <= k < |m.images| =>
                       if k < |q.slots| && q.slots[k].row.idled then q.idle(k, m.images[k]) else m.images[k]))
  }

  /** DACUpdateSCLKRate, over the registers just read. */
  function Rerated(q: Codec, m: Machine, registers: Bytes): Machine {
    WithImage(m, I2S_PHASE, q.rate(LiveOf(m, I2S_PHASE), registers))
  }

  predicate WrongDisc(d: Mount, blob: Bytes, pos: nat)
    requires pos + 16 <= |blob|
  {
    d.cdMode && (WordAt(blob, pos) != d.sessions || WordAt(blob, pos + 4) != d.tracks
                 || WordAt(blob, pos + 8) != d.sectors)
  }

  /** Reading row k at the cursor. */
  function ReadRow(q: Codec, d: Mount, v: nat, blob: Bytes, k: nat, m: Machine, pos: nat): Reading
    requires k < |q.slots|
  {
    var row := q.slots[k].row;
    if !Carried(row, v) then
      Cursor(if row.kept then m else WithImage(m, k, q.reset(k, d.facts, LiveOf(m, k))), pos)
    else if row.kind.Disc? then
      if pos + 16 > |blob| then Overrun
      else if WrongDisc(d, blob, pos) then Refused(m)
      else
        var index := WordAt(blob, pos + 12);
        Cursor(if index < d.images then m.(diskIndex := index) else m, pos + 16)
    else if HasMagic(row) && pos + 4 <= |blob| && blob[pos..pos+4] != q.slots[k].magic then
      var step := if row.kind.Handles? then q.slots[k].size else 4;
      if pos + step > |blob| then Overrun
      else Cursor(WithImage(m, k, q.reset(k, d.facts, LiveOf(m, k))), pos + step)
    else if pos + q.slots[k].size > |blob| then Overrun
    else if row.kind.Staging? then Cursor(IdleDrive(q, m), pos + q.slots[k].size)
    else
      var b := blob[pos..pos+q.slots[k].size];
      var m' := WithImage(m, k, q.settle(k, d.facts, LiveOf(m, k), b));
      Cursor(if k == DAC_REGISTERS then Rerated(q, m', b) else m', pos + q.slots[k].size)
  }

  /** After the first k rows. */
  function ReadRows(q: Codec, d: Mount, v: nat, blob: Bytes, m: Machine, k: nat): Reading
    requires k <= |q.slots|
  {
    if k == 0 then Cursor(m, HEADER)
    else
      match ReadRows(q, d, v, blob, m, k - 1)
      case Cursor(m', pos) => ReadRow(q, d, v, blob, k - 1, m', pos)
      case r => r
  }

  predicate HeaderAccepted(blob: Bytes) {
    && |blob| >= STATE_SIZE_V8
    && WordAt(blob, 0) == STATE_MAGIC
    && STATE_MIN_VERSION <= WordAt(blob, 4) <= STATE_VERSION
    && (WordAt(blob, 4) >= STATE_VERSION_DAC_I2S_RING ==> |blob| >= STATE_SIZE)
  }

  /** The first eight bytes of a state of version v: "SSJV", then the version. */
  ghost predicate Labelled(blob: Bytes, v: nat) {
    8 <= |blob| && v < 256 && blob[..8] == [0x53, 0x53, 0x4A, 0x56, v as byte, 0, 0, 0]
  }

  /** Versions 1 to 17, the sound ring making states bigger from version 9 on. */
  ghost predicate Acceptable(blob: Bytes) {
    && |blob| >= 0x260000 && Labelled(blob, blob[4] as nat) && 1 <= blob[4] <= 17
    && (blob[4] >= 9 ==> |blob| >= 0x280000)
  }

  lemma WordIs(b: Bytes, i: nat, n: int)
    requires i + 4 <= |b| && IsWord(n)
    ensures WordAt(b, i) == n <==> b[i..i + 4] == Word(n)
  {
    if WordAt(b, i) == n {
      BytesOfWord(n);
      SameBytes(b[i], b[i+1], b[i+2], b[i+3], Word(n)[0], Word(n)[1], Word(n)[2], Word(n)[3]);
      assert b[i..i + 4] == [b[i], b[i+1], b[i+2], b[i+3]];
    } else if b[i..i + 4] == Word(n) {
      WordRoundTrip(b, i, n);
    }
  }

  lemma SameBytes(a: byte, b: byte, c: byte, d: byte, x: byte, y: byte, z: byte, w: byte)
    requires a as int + b as int * 256 + c as int * 65536 + d as int * 16777216
          == x as int + y as int * 256 + z as int * 65536 + w as int * 16777216
    ensures a == x && b == y && c == z && d == w
  {
  }

  /** Which headers are accepted, byte by byte. */
  lemma HeaderBytes(blob: Bytes)
    ensures HeaderAccepted(blob) <==> Acceptable(blob)
    ensures Acceptable(blob) ==> WordAt(blob, 4) == blob[4] as int
  {
    if |blob| >= 8 {
      var v := WordAt(blob, 4);
      WordIs(blob, 0, STATE_MAGIC);
      WordIs(blob, 4, v);
      assert Word(STATE_MAGIC) == [0x53, 0x53, 0x4A, 0x56];
      assert v < 256 ==> Word(v) == [v as byte, 0, 0, 0];
      assert blob[..8] == blob[0..4] + blob[4..8];
      if Labelled(blob, blob[4] as nat) {
        WordIs(blob, 4, blob[4] as int);
        assert blob[4..8] == blob[..8][4..] && blob[0..4] == blob[..8][..4];
      }
    }
  }

  /** Derived timing is recomputed from the TOM registers just loaded, and a session that runs on
    * the emulated boot ROM marks main RAM. */
  function Finish(q: Codec, x: Facts, m: Machine): Machine {
    if 1 < |m.images| then
      m.(images := m.images[0 := q.work(x, m.images[0])], timing := q.memcon(m.images[1]))
    else m
  }

  function Load(q: Codec, d: Mount, blob: Bytes, m: Machine): (bool, Machine) {
    if !HeaderAccepted(blob) then (false, m)
    else match ReadRows(q, d, WordAt(blob, 4), blob, m, |q.slots|)
      case Cursor(m', _) => (true, Finish(q, d.facts, m'))
      case Refused(m') => (false, m')
      case Overrun => (false, m)
  }

  // ---------------------------------------------------------------- every accepted version

  /** What a state written by generation (v, cut) is meant to leave in the module of row k: what
    * it makes of the writer's image if there is one, else its reset or the live value.  No cursor
    * involved. */
  function Meaning(q: Codec, x: Facts, v: nat, cut: nat, img: seq<Bytes>, live: Bytes, k: nat): Bytes
    requires k < |q.slots| <= |img|
  {
    var row := q.slots[k].row;
    if Imageless(row) then live
    else if v <= 3 && row.idled then
      q.idle(k, if k < STAGING then q.settle(k, x, live, img[k]) else live)
    else if Carried(row, v) then
      if k >= cut then q.reset(k, x, live)
      else if v <= 7 then q.settle(k, x, live, img[k])
      else Taken(q, x, live, img, k)
    else if row.kept then live
    else q.reset(k, x, live)
  }

  /** A writer of version v that stopped before row `cut`: every row of its layout that it
    * lacks was appended to the version later. */
  ghost predicate Generation(q: Codec, v: nat, cut: nat) {
    && 1 <= v <= 17 && cut <= |q.slots|
    && forall k :: cut <= k < |q.slots| && Carried(q.slots[k].row, v) ==> q.slots[k].row.late
  }

  ghost predicate WriterImages(q: Codec, v: nat, cut: nat, img: seq<Bytes>) {
    && |img| == |q.slots|
    && forall k :: 0 <= k < cut && k < |q.slots| && Carried(q.slots[k].row, v) ==>
         && |img[k]| == q.slots[k].size
         && (HasMagic(q.slots[k].row) ==> 4 <= |img[k]| && img[k][..4] == q.slots[k].magic)
  }

  /** The blob such a writer left: payload after the header, then zero fill.  A complete writer
    * need not have filled. */
  ghost predicate WrittenBy(q: Codec, v: nat, cut: nat, img: seq<Bytes>, blob: Bytes) {
    && cut <= |q.slots| == |img|
    && var w := Payload(q.slots, v, img, cut);
    && HEADER + Span(q, v, |q.slots|) <= |blob| && HEADER + |w| <= |blob|
    && blob[HEADER..HEADER + |w|] == w
    && (cut < |q.slots| ==> forall i :: HEADER + |w| <= i < |blob| ==> blob[i] == 0)
  }

  ghost predicate Written(q: Codec, v: nat, cut: nat, img: seq<Bytes>, blob: Bytes) {
    Honest(q) && Generation(q, v, cut) && WriterImages(q, v, cut, img) && WrittenBy(q, v, cut, img, blob)
  }

  lemma {:induction false} PayloadPrefix(slots: seq<Slot>, v: nat, img: seq<Bytes>, j: nat, k: nat)
    requires j <= k <= |slots| <= |img|
    ensures Payload(slots, v, img, j) <= Payload(slots, v, img, k)
    decreases k - j
  {
    if j < k {
      PayloadPrefix(slots, v, img, j, k - 1);
    }
  }

  lemma {:induction false} PayloadSpan(q: Codec, v: nat, cut: nat, img: seq<Bytes>, k: nat)
    requires WriterImages(q, v, cut, img) && k <= cut <= |q.slots|
    ensures |Payload(q.slots, v, img, k)| == Span(q, v, k)
  {
    if k > 0 {
      PayloadSpan(q, v, cut, img, k - 1);
    }
  }

  lemma {:induction false} SpanGrows(q: Codec, v: nat, j: nat, k: nat)
    requires j <= k <= |q.slots|
    ensures Span(q, v, j) <= Span(q, v, k)
    decreases k - j
  {
    if j < k {
      SpanGrows(q, v, j, k - 1);
    }
  }

  lemma SliceWithin(b: Bytes, h: nat, w: Bytes, p: Bytes, s: nat)
    requires h + |w| <= |b| && b[h..h + |w|] == w && p <= w && s <= |p|
    ensures b[h + s..h + |p|] == p[s..]
  {
    assert forall i :: s <= i < |p| ==> b[h + i] == b[h..h + |w|][i] == p[i];
  }

  /** Inside the written part the next bytes are the next row's. */
  lemma ImageAtCursor(q: Codec, v: nat, cut: nat, img: seq<Bytes>, blob: Bytes, k: nat)
    requires WriterImages(q, v, cut, img) && WrittenBy(q, v, cut, img, blob)
    requires k < cut && Carried(q.slots[k].row, v)
    ensures var p := HEADER + Span(q, v, k);
      p + q.slots[k].size <= |blob| && blob[p..p + q.slots[k].size] == img[k]
      && (HasMagic(q.slots[k].row) ==> blob[p..p + 4] == q.slots[k].magic)
  {
    var p := Payload(q.slots, v, img, k + 1);
    PayloadPrefix(q.slots, v, img, k + 1, cut);
    PayloadSpan(q, v, cut, img, k);
    PayloadSpan(q, v, cut, img, k + 1);
    SliceWithin(blob, HEADER, Payload(q.slots, v, img, cut), p, Span(q, v, k));
    assert p[Span(q, v, k)..] == img[k];
    assert HasMagic(q.slots[k].row) ==> blob[HEADER + Span(q, v, k)..HEADER + |p|][..4] == q.slots[k].magic;
  }

  /** Past the written part there is only zero fill. */
  lemma ZerosAtCursor(q: Codec, x: Facts, live: Bytes, v: nat, cut: nat, img: seq<Bytes>, blob: Bytes, k: nat, p: nat)
    requires Written(q, v, cut, img, blob) && cut <= k < |q.slots| && Carried(q.slots[k].row, v)
    requires HEADER + Span(q, v, cut) <= p <= HEADER + Span(q, v, k)
    ensures p + q.slots[k].size <= |blob| && q.slots[k].row.late
    ensures HasMagic(q.slots[k].row) ==> 4 <= q.slots[k].size && blob[p..p + 4] != q.slots[k].magic
    ensures !HasMagic(q.slots[k].row) ==>
      q.settle(k, x, live, blob[p..p + q.slots[k].size]) == q.reset(k, x, live)
  {
    PayloadSpan(q, v, cut, img, cut);
    SpanGrows(q, v, k + 1, |q.slots|);
    if HasMagic(q.slots[k].row) {
      assert blob[p..p + 4] == Zeros(4);
    } else {
      assert blob[p..p + q.slots[k].size] == Zeros(q.slots[k].size);
    }
  }

  lemma SliceWords(blob: Bytes, p: nat, img: Bytes)
    requires p + 16 <= |blob| && blob[p..p + 16] == img
    ensures WordAt(blob, p) == WordAt(img, 0) && WordAt(blob, p + 4) == WordAt(img, 4)
    ensures WordAt(blob, p + 8) == WordAt(img, 8) && WordAt(blob, p + 12) == WordAt(img, 12)
  {
    assert forall i :: 0 <= i < 16 ==> blob[p + i] == img[i];
  }

  /** The disc words the writer wrote, if any, are those of the mounted disc. */
  ghost predicate DiscAccepted(q: Codec, d: Mount, v: nat, img: seq<Bytes>) {
    DISC < |q.slots| == |img| && Carried(q.slots[DISC].row, v) && |img[DISC]| == 16 ==> !WrongDisc(d, img[DISC], 0)
  }

  /** Reader and writer agree on the cursor at every row; past the written part the cursor
    * stays inside the zero fill. */
  ghost predicate InStep(q: Codec, v: nat, cut: nat, k: nat, pos: nat)
    requires cut <= |q.slots| && k <= |q.slots|
  {
    if k <= cut then pos == HEADER + Span(q, v, k)
    else HEADER + Span(q, v, cut) <= pos <= HEADER + Span(q, v, k)
  }

  lemma RowInStep(q: Codec, d: Mount, v: nat, cut: nat, img: seq<Bytes>, blob: Bytes, k: nat, m: Machine, pos: nat)
    requires Written(q, v, cut, img, blob) && DiscAccepted(q, d, v, img)
    requires k < |q.slots| && InStep(q, v, cut, k, pos)
    ensures var r := ReadRow(q, d, v, blob, k, m, pos); r.Cursor? && InStep(q, v, cut, k + 1, r.pos)
  {
    if Carried(q.slots[k].row, v) {
      if k < cut {
        ImageAtCursor(q, v, cut, img, blob, k);
        if k == DISC {
          SliceWords(blob, pos, img[k]);
        }
      } else {
        ZerosAtCursor(q, d.facts, LiveOf(m, k), v, cut, img, blob, k, pos);
      }
    }
  }

  lemma ReadNext(q: Codec, d: Mount, v: nat, blob: Bytes, m: Machine, k: nat)
    requires k < |q.slots| && ReadRows(q, d, v, blob, m, k).Cursor?
    ensures var r := ReadRows(q, d, v, blob, m, k);
      ReadRows(q, d, v, blob, m, k + 1) == ReadRow(q, d, v, blob, k, r.machine, r.pos)
  {
  }

  lemma {:induction false} CursorInStep(q: Codec, d: Mount, v: nat, cut: nat, img: seq<Bytes>, blob: Bytes,
      m: Machine, k: nat)
    requires Written(q, v, cut, img, blob) && DiscAccepted(q, d, v, img) && k <= |q.slots|
    ensures Aligned(q, v, cut, k, |m.images|, ReadRows(q, d, v, blob, m, k))
    decreases k
  {
    if k > 0 {
      CursorInStep(q, d, v, cut, img, blob, m, k - 1);
      AlignedNext(q, d, v, cut, img, blob, k - 1, |m.images|, ReadRows(q, d, v, blob, m, k - 1));
      ReadNext(q, d, v, blob, m, k - 1);
    }
  }

  /** After k rows: the reader goes on, from where the writer put the next row. */
  ghost predicate Aligned(q: Codec, v: nat, cut: nat, k: nat, images: nat, r: Reading)
    requires cut <= |q.slots| && k <= |q.slots|
  {
    r.Cursor? && InStep(q, v, cut, k, r.pos) && |r.machine.images| == images
  }

  lemma AlignedNext(q: Codec, d: Mount, v: nat, cut: nat, img: seq<Bytes>, blob: Bytes, k: nat, images: nat, r: Reading)
    requires Written(q, v, cut, img, blob) && DiscAccepted(q, d, v, img)
    requires k < |q.slots| && Aligned(q, v, cut, k, images, r)
    ensures Aligned(q, v, cut, k + 1, images, ReadRow(q, d, v, blob, k, r.machine, r.pos))
  {
    RowInStep(q, d, v, cut, img, blob, k, r.machine, r.pos);
  }

  /** Each row replaces its own image only; the pre-v4 staging row also idles the drive, and the
    * DAC registers set the resampler's rate. */
  lemma RowFrame(q: Codec, d: Mount, v: nat, blob: Bytes, k: nat, m: Machine, pos: nat, j: nat)
    requires k < |q.slots| && RowInOrder(k, q.slots[k].row) && ReadRow(q, d, v, blob, k, m, pos).Cursor?
    requires j != k && j < |m.images|
    ensures k == DAC_REGISTERS && Carried(q.slots[k].row, v) ==> pos + q.slots[k].size <= |blob|
    ensures var m' := ReadRow(q, d, v, blob, k, m, pos).machine;
      |m'.images| == |m.images| && m'.images[j] ==
        if q.slots[k].row.kind.Staging? && Carried(q.slots[k].row, v) && j < |q.slots|
          && q.slots[j].row.idled then q.idle(j, m.images[j])
        else if j == I2S_PHASE && k == DAC_REGISTERS && Carried(q.slots[k].row, v) then
          q.rate(m.images[j], blob[pos..pos + q.slots[k].size])
        else m.images[j]
  {
  }

  /** What a row leaves in its own image. */
  lemma RowLoads(q: Codec, d: Mount, v: nat, cut: nat, img: seq<Bytes>, blob: Bytes, k: nat, m: Machine, pos: nat)
    requires Written(q, v, cut, img, blob) && DiscAccepted(q, d, v, img)
    requires k < |q.slots| == |m.images| && InStep(q, v, cut, k, pos)
    ensures var row, r := q.slots[k].row, ReadRow(q, d, v, blob, k, m, pos);
      r.Cursor? && |r.machine.images| == |m.images| && r.machine.images[k] ==
        if Imageless(row) then m.images[k]
        else if Carried(row, v) then
          if k < cut then q.settle(k, d.facts, m.images[k], img[k]) else q.reset(k, d.facts, m.images[k])
        else if row.kept then m.images[k] else q.reset(k, d.facts, m.images[k])
  {
    RowInStep(q, d, v, cut, img, blob, k, m, pos);
    if Carried(q.slots[k].row, v) {
      if k < cut {
        ImageAtCursor(q, v, cut, img, blob, k);
      } else {
        ZerosAtCursor(q, d.facts, LiveOf(m, k), v, cut, img, blob, k, pos);
      }
    }
  }

  /** Image of row j after k rows of a well-formed read. */
  ghost function Midway(q: Codec, x: Facts, v: nat, cut: nat, img: seq<Bytes>, live: Bytes, j: nat, k: nat): Bytes
    requires j < |q.slots| <= |img|
  {
    if v < STATE_VERSION_CDROM_RESTRUCTURE && q.slots[j].row.idled then
      if k > STAGING then Meaning(q, x, v, cut, img, live, j)
      else if j < k then q.settle(j, x, live, img[j]) else live
    else if j == I2S_PHASE && v >= STATE_VERSION_DAC_REGISTERS && j < k <= DAC_REGISTERS then
      q.settle(j, x, live, img[j])
    else if j < k then Meaning(q, x, v, cut, img, live, j)
    else live
  }

  lemma ImageRow(q: Codec, d: Mount, v: nat, cut: nat, img: seq<Bytes>, blob: Bytes, live: Bytes, k: nat,
      m: Machine, pos: nat, j: nat)
    requires Written(q, v, cut, img, blob) && DiscAccepted(q, d, v, img)
    requires k < |q.slots| == |m.images| && j < |q.slots| && InStep(q, v, cut, k, pos)
    requires m.images[j] == Midway(q, d.facts, v, cut, img, live, j, k)
    ensures var r := ReadRow(q, d, v, blob, k, m, pos);
      r.Cursor? && |r.machine.images| == |m.images|
      && r.machine.images[j] == Midway(q, d.facts, v, cut, img, live, j, k + 1)
  {
    RowInStep(q, d, v, cut, img, blob, k, m, pos);
    if j == k {
      RowLoads(q, d, v, cut, img, blob, k, m, pos);
      assert q.slots[j].row.idled && j < STAGING ==> Carried(q.slots[j].row, v) && j < cut;
    } else {
      RowFrame(q, d, v, blob, k, m, pos, j);
      if j == I2S_PHASE && k == DAC_REGISTERS && v >= STATE_VERSION_DAC_REGISTERS {
        ImageAtCursor(q, v, cut, img, blob, k);
      }
    }
  }

  /** After k rows the cursor is in step and row j's module holds what it should by then. */
  ghost predicate Underway(q: Codec, d: Mount, v: nat, cut: nat, img: seq<Bytes>, m: Machine, j: nat, k: nat,
      r: Reading)
    requires cut <= |q.slots| && k <= |q.slots| && j < |q.slots| == |m.images| && |q.slots| <= |img|
  {
    && r.Cursor? && InStep(q, v, cut, k, r.pos) && |r.machine.images| == |m.images|
    && r.machine.images[j] == Midway(q, d.facts, v, cut, img, m.images[j], j, k)
  }

  lemma {:induction false} ImageInStep(q: Codec, d: Mount, v: nat, cut: nat, img: seq<Bytes>, blob: Bytes,
      m: Machine, k: nat, j: nat)
    requires Written(q, v, cut, img, blob) && DiscAccepted(q, d, v, img)
    requires k <= |q.slots| == |m.images| && j < |q.slots|
    ensures Underway(q, d, v, cut, img, m, j, k, ReadRows(q, d, v, blob, m, k))
    decreases k
  {
    if k > 0 {
      ImageInStep(q, d, v, cut, img, blob, m, k - 1, j);
      UnderwayNext(q, d, v, cut, img, blob, m, j, k - 1, ReadRows(q, d, v, blob, m, k - 1));
      ReadNext(q, d, v, blob, m, k - 1);
    }
  }

  lemma UnderwayNext(q: Codec, d: Mount, v: nat, cut: nat, img: seq<Bytes>, blob: Bytes, m: Machine, j: nat, k: nat,
      r: Reading)
    requires Written(q, v, cut, img, blob) && DiscAccepted(q, d, v, img)
    requires k < |q.slots| == |m.images| && j < |q.slots| && Underway(q, d, v, cut, img, m, j, k, r)
    ensures Underway(q, d, v, cut, img, m, j, k + 1, ReadRow(q, d, v, blob, k, r.machine, r.pos))
  {
    RowInStep(q, d, v, cut, img, blob, k, r.machine, r.pos);
    ImageRow(q, d, v, cut, img, blob, m.images[j], k, r.machine, r.pos, j);
  }

  lemma RowIndex(q: Codec, d: Mount, v: nat, blob: Bytes, k: nat, m: Machine, pos: nat)
    requires k < |q.slots| && ReadRow(q, d, v, blob, k, m, pos).Cursor?
    ensures var m' := ReadRow(q, d, v, blob, k, m, pos).machine;
      && m'.timing == m.timing
      && (!(q.slots[k].row.kind.Disc? && Carried(q.slots[k].row, v)) ==> m'.diskIndex == m.diskIndex)
  {
  }

  lemma DiscRow(q: Codec, d: Mount, v: nat, cut: nat, img: seq<Bytes>, blob: Bytes, m: Machine, pos: nat)
    requires Written(q, v, cut, img, blob) && DiscAccepted(q, d, v, img)
    requires Carried(q.slots[DISC].row, v) && InStep(q, v, cut, DISC, pos)
    ensures |img[DISC]| == 16
    ensures var r := ReadRow(q, d, v, blob, DISC, m, pos);
      r.Cursor? && r.machine.timing == m.timing && r.machine.diskIndex ==
        if WordAt(img[DISC], 12) < d.images then WordAt(img[DISC], 12) else m.diskIndex
  {
    assert DISC < cut;
    ImageAtCursor(q, v, cut, img, blob, DISC);
    SliceWords(blob, pos, img[DISC]);
  }

  lemma {:induction false} IndexSettled(q: Codec, d: Mount, v: nat, blob: Bytes, m: Machine, j: nat, k: nat)
    requires forall i :: 0 <= i < |q.slots| && q.slots[i].row.kind.Disc? ==> i == DISC
    requires DISC < |q.slots| && j <= k <= |q.slots| && ReadRows(q, d, v, blob, m, k).Cursor?
    requires !(j <= DISC < k && Carried(q.slots[DISC].row, v))
    ensures var r, r' := ReadRows(q, d, v, blob, m, j), ReadRows(q, d, v, blob, m, k);
      r.Cursor? && r'.machine.timing == r.machine.timing && r'.machine.diskIndex == r.machine.diskIndex
    decreases k - j
  {
    if j < k {
      IndexSettled(q, d, v, blob, m, j, k - 1);
      var r := ReadRows(q, d, v, blob, m, k - 1);
      RowIndex(q, d, v, blob, k - 1, r.machine, r.pos);
    }
  }

  /** Every version from 1 to 17, every in-place extension of it: loading what that writer wrote,
    * over any machine, reads each chunk where the writer put it and leaves in every module
    * exactly what the state means; a chunk the writer lacked is reset or kept live as the
    * version table says; the resampler's rate follows the loaded DAC registers, the derived DRAM
    * timing the loaded TOM registers, and main RAM has the work flag where it belongs. */
  lemma EveryGenerationLoads(q: Codec, d: Mount, v: nat, cut: nat, img: seq<Bytes>, blob: Bytes, m: Machine)
    requires Written(q, v, cut, img, blob) && DiscAccepted(q, d, v, img)
    requires |m.images| == |q.slots| && Labelled(blob, v) && |blob| >= if v <= 8 then 0x260000 else 0x280000
    ensures Carried(q.slots[DISC].row, v) ==> |img[DISC]| == 16
    ensures var (ok, m') := Load(q, d, blob, m);
      && ok && |m'.images| == |q.slots|
      && (forall k :: 0 <= k < |q.slots| ==>
            m'.images[k] == Marked(q, d.facts, k, Meaning(q, d.facts, v, cut, img, m.images[k], k)))
      && m'.timing == q.memcon(m'.images[1])
      && m'.diskIndex == (if Carried(q.slots[DISC].row, v) && WordAt(img[DISC], 12) < d.images
                          then WordAt(img[DISC], 12) else m.diskIndex)
  {
    assert blob[4] == blob[..8][4] == v as byte;
    HeaderBytes(blob);
    CursorInStep(q, d, v, cut, img, blob, m, |q.slots|);
    if Carried(q.slots[DISC].row, v) {
      CursorInStep(q, d, v, cut, img, blob, m, DISC);
      var r := ReadRows(q, d, v, blob, m, DISC);
      IndexSettled(q, d, v, blob, m, 0, DISC);
      DiscRow(q, d, v, cut, img, blob, r.machine, r.pos);
      IndexSettled(q, d, v, blob, m, DISC + 1, |q.slots|);
    } else {
      IndexSettled(q, d, v, blob, m, 0, |q.slots|);
    }
    var r := ReadRows(q, d, v, blob, m, |q.slots|);
    forall k | 0 <= k < |q.slots|
      ensures r.machine.images[k] == Meaning(q, d.facts, v, cut, img, m.images[k], k)
    {
      ImageInStep(q, d, v, cut, img, blob, m, |q.slots|, k);
    }
  }

  // ---------------------------------------------------------------- refusals and bounds

  /** The cursor stays inside the buffer whatever the buffer says: no accepted blob, damaged or
    * not, makes the reader run off its end. */
  lemma {:induction false} NeverOverruns(q: Codec, d: Mount, v: nat, blob: Bytes, m: Machine, k: nat)
    requires Honest(q) && k <= |q.slots| && HEADER + Span(q, v, |q.slots|) <= |blob|
    ensures var r := ReadRows(q, d, v, blob, m, k);
      !r.Overrun? && (r.Cursor? ==> HEADER <= r.pos <= HEADER + Span(q, v, k) <= |blob|)
    decreases k
  {
    SpanGrows(q, v, k, |q.slots|);
    if k > 0 {
      NeverOverruns(q, d, v, blob, m, k - 1);
    }
  }

  lemma {:induction false} StopsOnce(q: Codec, d: Mount, v: nat, blob: Bytes, m: Machine, j: nat, k: nat)
    requires j <= k <= |q.slots| && !ReadRows(q, d, v, blob, m, j).Cursor?
    ensures ReadRows(q, d, v, blob, m, k) == ReadRows(q, d, v, blob, m, j)
    decreases k - j
  {
    if j < k {
      StopsOnce(q, d, v, blob, m, j, k - 1);
    }
  }

  /** Only the disc row can refuse. */
  lemma {:induction false} OnlyDiscRefuses(q: Codec, d: Mount, v: nat, blob: Bytes, m: Machine, k: nat)
    requires Honest(q) && HEADER + Span(q, v, |q.slots|) <= |blob| && k <= |q.slots|
    requires k > DISC ==> ReadRows(q, d, v, blob, m, DISC + 1).Cursor?
    ensures ReadRows(q, d, v, blob, m, k).Cursor?
    decreases k
  {
    NeverOverruns(q, d, v, blob, m, k);
    if k > 0 && k != DISC + 1 {
      OnlyDiscRefuses(q, d, v, blob, m, k - 1);
    }
  }

  lemma {:induction false} RowsAhead(q: Codec, d: Mount, v: nat, blob: Bytes, m: Machine, k: nat, j: nat)
    requires Honest(q) && k <= j < |m.images| && v >= STATE_VERSION_CDROM_RESTRUCTURE && k <= DISC
    requires ReadRows(q, d, v, blob, m, k).Cursor?
    ensures var m' := ReadRows(q, d, v, blob, m, k).machine;
      |m'.images| == |m.images| && m'.images[j] == m.images[j] && m'.diskIndex == m.diskIndex && m'.timing == m.timing
    decreases k
  {
    if k > 0 {
      RowsAhead(q, d, v, blob, m, k - 1, j);
      var r := ReadRows(q, d, v, blob, m, k - 1);
      RowFrame(q, d, v, blob, k - 1, r.machine, r.pos, j);
      RowIndex(q, d, v, blob, k - 1, r.machine, r.pos);
    }
  }

  lemma WrongDiscRefuses(q: Codec, d: Mount, blob: Bytes, m: Machine, pos: nat)
    requires HeaderAccepted(blob) && DISC < |q.slots| && q.slots[DISC].row.kind.Disc?
    requires Carried(q.slots[DISC].row, WordAt(blob, 4)) && pos + 16 <= |blob| && WrongDisc(d, blob, pos)
    requires ReadRows(q, d, WordAt(blob, 4), blob, m, DISC).Cursor?
    requires ReadRows(q, d, WordAt(blob, 4), blob, m, DISC).pos == pos
    ensures Load(q, d, blob, m) == (false, ReadRows(q, d, WordAt(blob, 4), blob, m, DISC).machine)
  {
    StopsOnce(q, d, WordAt(blob, 4), blob, m, DISC + 1, |q.slots|);
  }

  /** Refusals.  A state refused for its size, magic or version leaves the machine untouched.
    * Past the header the only refusal is the wrong-disc one: it happens exactly when a disc is
    * mounted and any of its three identity words differs from the state's, and it comes after
    * every earlier chunk was loaded, but leaves the disc index, the derived timing and every
    * module whose chunk is written after the disc words as they were. */
  lemma RefusalsAreKnown(q: Codec, d: Mount, blob: Bytes, m: Machine)
    requires Honest(q) && Fits(q) && |m.images| == |q.slots|
    ensures !Acceptable(blob) ==> Load(q, d, blob, m) == (false, m)
    ensures Acceptable(blob) ==>
      var v, (ok, m') := blob[4] as nat, Load(q, d, blob, m);
      var at := ReadRows(q, d, v, blob, m, DISC);
      && at.Cursor? && at.pos + (if Carried(q.slots[DISC].row, v) then 16 else 0) <= |blob|
      && (!ok <==> Carried(q.slots[DISC].row, v) && WrongDisc(d, blob, at.pos))
      && (!ok ==> m' == at.machine && |m'.images| == |q.slots| && m'.timing == m.timing && m'.diskIndex == m.diskIndex
                  && forall j :: DISC < j < |q.slots| ==> m'.images[j] == m.images[j])
  {
    HeaderBytes(blob);
    if HeaderAccepted(blob) {
      var v := WordAt(blob, 4);
      assert STATE_MIN_VERSION <= v <= STATE_VERSION;
      OnlyDiscRefuses(q, d, v, blob, m, DISC);
      NeverOverruns(q, d, v, blob, m, DISC);
      NeverOverruns(q, d, v, blob, m, DISC + 1);
      SpanGrows(q, v, DISC + 1, |q.slots|);
      var at := ReadRows(q, d, v, blob, m, DISC);
      if ReadRows(q, d, v, blob, m, DISC + 1).Cursor? {
        OnlyDiscRefuses(q, d, v, blob, m, |q.slots|);
      } else {
        StopsOnce(q, d, v, blob, m, DISC + 1, |q.slots|);
        RowsAhead(q, d, v, blob, m, DISC, DISC);
        forall j | DISC < j < |q.slots| ensures at.machine.images[j] == m.images[j] {
          RowsAhead(q, d, v, blob, m, DISC, j);
        }
      }
    }
  }

  // ---------------------------------------------------------------- the current writer

  datatype Context = Normal | RunaheadSameInstance | RunaheadSameBinary | RollbackNetplay

  predicate SameSession(unanswered: bool, ctx: Context) {
    !unanswered && (ctx.RunaheadSameInstance? || ctx.RunaheadSameBinary?)
  }

  /** Header and payload of a state written now. */
  function Current(q: Codec, d: Mount, m: Machine): Bytes
    requires MountOk(d) && IsWord(m.diskIndex) && |m.images| == |q.slots|
  {
    Header(STATE_VERSION) + Payload(q.slots, STATE_VERSION, ImagesNow(m, d), |q.slots|)
  }

  /** What the buffer holds afterwards: the state, then zero fill (or, for same-session
    * run-ahead, whatever was there), and beyond STATE_SIZE what was there. */
  ghost predicate Serialized(q: Codec, d: Mount, m: Machine, sameSession: bool, before: Bytes, after: Bytes)
    requires MountOk(d) && IsWord(m.diskIndex) && |m.images| == |q.slots|
  {
    var w := Current(q, d, m);
    && |w| <= STATE_SIZE <= |before| == |after|
    && after[..|w|] == w
    && after[STATE_SIZE..] == before[STATE_SIZE..]
    && after[|w|..STATE_SIZE] == if sameSession then before[|w|..STATE_SIZE] else Zeros(STATE_SIZE - |w|)
  }

  lemma CurrentIsWritten(q: Codec, d: Mount, m: Machine, blob: Bytes)
    requires Honest(q) && Fits(q) && MountOk(d) && Shaped(q, m)
    requires |Current(q, d, m)| <= STATE_SIZE <= |blob| && blob[..|Current(q, d, m)|] == Current(q, d, m)
    ensures Written(q, STATE_VERSION, |q.slots|, ImagesNow(m, d), blob)
    ensures HeaderAccepted(blob) && WordAt(blob, 4) == STATE_VERSION
    ensures Labelled(blob, 17) && blob[8..16] == Zeros(8)
    ensures |Current(q, d, m)| == HEADER + Span(q, STATE_VERSION, |q.slots|)
  {
    var img := ImagesNow(m, d);
    var w := Current(q, d, m);
    var p := Payload(q.slots, STATE_VERSION, img, |q.slots|);
    PayloadSpan(q, STATE_VERSION, |q.slots|, img, |q.slots|);
    assert blob[HEADER..HEADER + |p|] == w[HEADER..] == p;
    assert blob[0..4] == w[..4] == Word(STATE_MAGIC);
    assert blob[4..8] == w[4..8] == Word(STATE_VERSION);
    WordRoundTrip(blob, 0, STATE_MAGIC);
    WordRoundTrip(blob, 4, STATE_VERSION);
    HeaderBytes(blob);
    assert blob[4] == blob[4..8][0];
    assert blob[8..16] == w[8..16] == Word(0) + Word(0);
  }

  lemma FourWords(a: Bytes, b: Bytes, c: Bytes, d: Bytes)
    requires |a| == |b| == |c| == |d| == 4
    ensures var w := a + b + c + d;
      |w| == 16 && w[0..4] == a && w[4..8] == b && w[8..12] == c && w[12..16] == d
  {
  }

  lemma IdentityWords(d: Mount, index: int)
    requires MountOk(d) && IsWord(index)
    ensures var b := Identity(d, index);
      && WordAt(b, 0) == (if d.cdMode then d.sessions else 0)
      && WordAt(b, 4) == (if d.cdMode then d.tracks else 0)
      && WordAt(b, 8) == (if d.cdMode then d.sectors else 0)
      && WordAt(b, 12) == index
  {
    var b := Identity(d, index);
    var x, y := if d.cdMode then d.sessions else 0, if d.cdMode then d.tracks else 0;
    var z := if d.cdMode then d.sectors else 0;
    FourWords(Word(x), Word(y), Word(z), Word(index));
    WordRoundTrip(b, 0, x);
    WordRoundTrip(b, 4, y);
    WordRoundTrip(b, 8, z);
    WordRoundTrip(b, 12, index);
  }

  /** The identity words a session writes: zeros without a CD unit. */
  predicate SameIdentity(d: Mount, e: Mount) {
    && (if d.cdMode then d.sessions else 0) == (if e.cdMode then e.sessions else 0)
    && (if d.cdMode then d.tracks else 0) == (if e.cdMode then e.tracks else 0)
    && (if d.cdMode then d.sectors else 0) == (if e.cdMode then e.sectors else 0)
  }

  lemma MatchingDiscLoads(q: Codec, d: Mount, m: Machine, e: Mount, live: Machine, blob: Bytes)
    requires Honest(q) && Fits(q) && MountOk(d) && MountOk(e) && Shaped(q, m) && |live.images| == |q.slots|
    requires |Current(q, d, m)| <= STATE_SIZE <= |blob| && blob[..|Current(q, d, m)|] == Current(q, d, m)
    requires (e.cdMode ==> SameIdentity(d, e))
    ensures var (ok, m') := Load(q, e, blob, live);
      && ok && |m'.images| == |q.slots|
      && (forall k :: 0 <= k < |q.slots| && !Imageless(q.slots[k].row) ==>
            m'.images[k] == Marked(q, e.facts, k, Taken(q, e.facts, live.images[k], m.images, k)))
      && m'.diskIndex == (if m.diskIndex < e.images then m.diskIndex else live.diskIndex)
      && m'.timing == q.memcon(m'.images[1])
  {
    CurrentIsWritten(q, d, m, blob);
    var img := ImagesNow(m, d);
    IdentityWords(d, m.diskIndex);
    EveryGenerationLoads(q, e, STATE_VERSION, |q.slots|, img, blob, live);
    var m' := Load(q, e, blob, live).1;
    forall k | 0 <= k < |q.slots| && !Imageless(q.slots[k].row)
      ensures m'.images[k] == Marked(q, e.facts, k, Taken(q, e.facts, live.images[k], m.images, k))
    {
      assert k != DISC && img[k] == m.images[k];
      assert Meaning(q, e.facts, STATE_VERSION, |q.slots|, img, live.images[k], k)
          == Taken(q, e.facts, live.images[k], m.images, k);
    }
  }

  lemma SeesOtherDisc(d: Mount, index: int, e: Mount, blob: Bytes, p: nat)
    requires MountOk(d) && IsWord(index) && p + 16 <= |blob| && blob[p..p + 16] == Identity(d, index)
    requires e.cdMode && !SameIdentity(d, e)
    ensures WrongDisc(e, blob, p)
  {
    IdentityWords(d, index);
    SliceWords(blob, p, Identity(d, index));
  }

  lemma OtherDiscIsSeen(q: Codec, d: Mount, m: Machine, e: Mount, blob: Bytes)
    requires Honest(q) && Fits(q) && MountOk(d) && Shaped(q, m)
    requires Written(q, STATE_VERSION, |q.slots|, ImagesNow(m, d), blob)
    requires e.cdMode && !SameIdentity(d, e)
    ensures var p := HEADER + Span(q, STATE_VERSION, DISC); p + 16 <= |blob| && WrongDisc(e, blob, p)
  {
    var img := ImagesNow(m, d);
    assert Carried(q.slots[DISC].row, STATE_VERSION);
    ImageAtCursor(q, STATE_VERSION, |q.slots|, img, blob, DISC);
    SeesOtherDisc(d, m.diskIndex, e, blob, HEADER + Span(q, STATE_VERSION, DISC));
  }

  /** Only the disc row looks at the mounted disc. */
  lemma RowDiscUnseen(q: Codec, e: Mount, v: nat, blob: Bytes, k: nat, m: Machine, pos: nat)
    requires k < |q.slots| && !q.slots[k].row.kind.Disc?
    ensures ReadRow(q, e, v, blob, k, m, pos) == ReadRow(q, e.(cdMode := false), v, blob, k, m, pos)
  {
  }

  /** So in front of the disc words it makes no difference which disc is mounted. */
  lemma {:induction false} DiscUnseen(q: Codec, e: Mount, v: nat, blob: Bytes, m: Machine, k: nat)
    requires Honest(q) && k <= DISC
    ensures ReadRows(q, e, v, blob, m, k) == ReadRows(q, e.(cdMode := false), v, blob, m, k)
    decreases k
  {
    if k > 0 {
      DiscUnseen(q, e, v, blob, m, k - 1);
      var r := ReadRows(q, e, v, blob, m, k - 1);
      if r.Cursor? {
        RowDiscUnseen(q, e, v, blob, k - 1, r.machine, r.pos);
      }
    }
  }

  lemma CursorToDisc(q: Codec, e: Mount, img: seq<Bytes>, blob: Bytes, m: Machine)
    requires Written(q, STATE_VERSION, |q.slots|, img, blob)
    ensures var r := ReadRows(q, e, STATE_VERSION, blob, m, DISC);
      r.Cursor? && r.pos == HEADER + Span(q, STATE_VERSION, DISC)
  {
    DiscUnseen(q, e, STATE_VERSION, blob, m, DISC);
    CursorInStep(q, e.(cdMode := false), STATE_VERSION, |q.slots|, img, blob, m, DISC);
  }

  /** So up to there every module is loaded. */
  lemma EarlierLoaded(q: Codec, e: Mount, img: seq<Bytes>, blob: Bytes, live: Machine, j: nat)
    requires Written(q, STATE_VERSION, |q.slots|, img, blob) && j < DISC && |live.images| == |q.slots|
    requires !Imageless(q.slots[j].row)
    ensures var r := ReadRows(q, e, STATE_VERSION, blob, live, DISC);
      r.Cursor? && |r.machine.images| == |q.slots|
      && r.machine.images[j] == Taken(q, e.facts, live.images[j], img, j)
  {
    DiscUnseen(q, e, STATE_VERSION, blob, live, DISC);
    ImageInStep(q, e.(cdMode := false), STATE_VERSION, |q.slots|, img, blob, live, DISC, j);
  }

  lemma RefusedAt(q: Codec, d: Mount, m: Machine, e: Mount, live: Machine, blob: Bytes)
    requires Honest(q) && Fits(q) && MountOk(d) && Shaped(q, m) && |live.images| == |q.slots|
    requires Written(q, STATE_VERSION, |q.slots|, ImagesNow(m, d), blob)
    requires HeaderAccepted(blob) && WordAt(blob, 4) == STATE_VERSION
    requires e.cdMode && !SameIdentity(d, e)
    ensures var at := ReadRows(q, e, STATE_VERSION, blob, live, DISC);
      at.Cursor? && Load(q, e, blob, live) == (false, at.machine)
  {
    OtherDiscIsSeen(q, d, m, e, blob);
    CursorToDisc(q, e, ImagesNow(m, d), blob, live);
    WrongDiscRefuses(q, e, blob, live, HEADER + Span(q, STATE_VERSION, DISC));
  }

  /** A current state never loads with another disc mounted; but the refusal comes after every
    * module in front of the disc words was loaded. */
  lemma OtherDiscRefused(q: Codec, d: Mount, m: Machine, e: Mount, live: Machine, blob: Bytes)
    requires Honest(q) && Fits(q) && MountOk(d) && MountOk(e) && Shaped(q, m) && |live.images| == |q.slots|
    requires |Current(q, d, m)| <= STATE_SIZE <= |blob| && blob[..|Current(q, d, m)|] == Current(q, d, m)
    requires e.cdMode && !SameIdentity(d, e)
    ensures var (ok, m') := Load(q, e, blob, live);
      && !ok
      && forall j :: 0 <= j < DISC && !Imageless(q.slots[j].row) ==>
           j < |m'.images| && m'.images[j] == Taken(q, e.facts, live.images[j], m.images, j)
  {
    CurrentIsWritten(q, d, m, blob);
    RefusedAt(q, d, m, e, live, blob);
    forall j | 0 <= j < DISC && !Imageless(q.slots[j].row)
      ensures j < |Load(q, e, blob, live).1.images|
      ensures Load(q, e, blob, live).1.images[j] == Taken(q, e.facts, live.images[j], m.images, j)
    {
      EarlierLoaded(q, e, ImagesNow(m, d), blob, live, j);
    }
  }

  /** A state written with disc d mounted is accepted by a session with disc e exactly when e
    * has no CD unit or the identities agree; accepted, it leaves in every module what that
    * module makes of the writer's image, whatever lay in the buffer past the written length. */
  lemma CurrentLoads(q: Codec, d: Mount, m: Machine, e: Mount, live: Machine, blob: Bytes)
    requires Honest(q) && Fits(q) && MountOk(d) && MountOk(e) && Shaped(q, m) && |live.images| == |q.slots|
    requires |Current(q, d, m)| <= STATE_SIZE <= |blob| && blob[..|Current(q, d, m)|] == Current(q, d, m)
    ensures var (ok, m') := Load(q, e, blob, live);
      && (ok <==> (e.cdMode ==> SameIdentity(d, e)))
      && (ok ==>
            && |m'.images| == |q.slots|
            && (forall k :: 0 <= k < |q.slots| && !Imageless(q.slots[k].row) ==>
                  m'.images[k] == Marked(q, e.facts, k, Taken(q, e.facts, live.images[k], m.images, k)))
            && m'.diskIndex == (if m.diskIndex < e.images then m.diskIndex else live.diskIndex)
            && m'.timing == q.memcon(m'.images[1]))
  {
    if e.cdMode ==> SameIdentity(d, e) {
      MatchingDiscLoads(q, d, m, e, live, blob);
    } else {
      OtherDiscRefused(q, d, m, e, live, blob);
    }
  }

  lemma {:induction false} PayloadByImages(q: Codec, v: nat, a: seq<Bytes>, b: seq<Bytes>, k: nat)
    requires k <= |q.slots| == |a| == |b|
    requires forall j :: 0 <= j < |q.slots| && Carried(q.slots[j].row, v) ==> a[j] == b[j]
    ensures Payload(q.slots, v, a, k) == Payload(q.slots, v, b, k)
  {
    if k > 0 {
      PayloadByImages(q, v, a, b, k - 1);
    }
  }

  lemma SliceOf(front: Bytes, image: Bytes, whole: Bytes, head: Bytes)
    requires front + image <= whole
    ensures |head| + |front| + |image| <= |head + whole|
    ensures (head + whole)[|head| + |front|..|head| + |front| + |image|] == image
  {
    assert whole[..|front| + |image|] == front + image;
    forall i | 0 <= i < |image| ensures (head + whole)[|head| + |front| + i] == image[i] {
      assert (head + whole)[|head| + |front| + i] == whole[|front| + i] == (front + image)[|front| + i];
    }
  }

  /** Where row k sits in a current state. */
  lemma RowSlice(q: Codec, d: Mount, m: Machine, k: nat)
    requires Honest(q) && MountOk(d) && Shaped(q, m) && k < |q.slots| && Carried(q.slots[k].row, STATE_VERSION)
    ensures var p := HEADER + Span(q, STATE_VERSION, k);
      p + q.slots[k].size <= |Current(q, d, m)|
      && Current(q, d, m)[p..p + q.slots[k].size] == ImagesNow(m, d)[k]
  {
    var img := ImagesNow(m, d);
    PayloadPrefix(q.slots, STATE_VERSION, img, k + 1, |q.slots|);
    PayloadSpan(q, STATE_VERSION, |q.slots|, img, k);
    var front := Payload(q.slots, STATE_VERSION, img, k);
    assert Payload(q.slots, STATE_VERSION, img, k + 1) == front + img[k];
    SliceOf(front, img[k], Payload(q.slots, STATE_VERSION, img, |q.slots|), Header(STATE_VERSION));
  }

  /** Two machines write the same current state exactly when they write the same rows. */
  lemma SameStateSameRows(q: Codec, d: Mount, m: Machine, e: Mount, n: Machine)
    requires Honest(q) && MountOk(d) && MountOk(e) && Shaped(q, m) && Shaped(q, n)
    ensures Current(q, d, m) == Current(q, e, n) <==>
      forall k :: 0 <= k < |q.slots| && Carried(q.slots[k].row, STATE_VERSION) ==>
        ImagesNow(m, d)[k] == ImagesNow(n, e)[k]
  {
    var a, b := ImagesNow(m, d), ImagesNow(n, e);
    if forall k :: 0 <= k < |q.slots| && Carried(q.slots[k].row, STATE_VERSION) ==> a[k] == b[k] {
      PayloadByImages(q, STATE_VERSION, a, b, |q.slots|);
    }
    if Current(q, d, m) == Current(q, e, n) {
      forall k | 0 <= k < |q.slots| && Carried(q.slots[k].row, STATE_VERSION) ensures a[k] == b[k] {
        RowSlice(q, d, m, k);
        RowSlice(q, e, n, k);
      }
    }
  }

  /** The disc words agree exactly when the identities and the indices do. */
  lemma SameWords(d: Mount, i: int, e: Mount, j: int)
    requires MountOk(d) && MountOk(e) && IsWord(i) && IsWord(j)
    ensures Identity(d, i) == Identity(e, j) <==> SameIdentity(d, e) && i == j
  {
    IdentityWords(d, i);
    IdentityWords(e, j);
  }

  /** Writing again after loading.  A session that accepted a current state writes the same
    * bytes back if and only if it writes the same identity words, the saved image index was one
    * it could select (or already selects), and every module gave back the image it read. */
  lemma ResaveIsIdentical(q: Codec, d: Mount, m: Machine, e: Mount, live: Machine, blob: Bytes)
    requires Honest(q) && Fits(q) && MountOk(d) && MountOk(e) && Shaped(q, m)
    requires |live.images| == |q.slots| && IsWord(live.diskIndex)
    requires |Current(q, d, m)| <= STATE_SIZE <= |blob| && blob[..|Current(q, d, m)|] == Current(q, d, m)
    requires Load(q, e, blob, live).0
    ensures var m' := Load(q, e, blob, live).1;
      && |m'.images| == |q.slots| && IsWord(m'.diskIndex)
      && (Current(q, e, m') == Current(q, d, m) <==>
            && SameIdentity(d, e) && (m.diskIndex < e.images || m.diskIndex == live.diskIndex)
            && forall k :: 0 <= k < |q.slots| && !Imageless(q.slots[k].row) ==> Restores(q, e, live, m, k))
  {
    CurrentLoads(q, d, m, e, live, blob);
    var m' := Load(q, e, blob, live).1;
    SameStateSameRows(q, d, m, e, m');
    SameWords(d, m.diskIndex, e, m'.diskIndex);
    assert Carried(q.slots[DISC].row, STATE_VERSION);
    assert forall k :: 0 <= k < |q.slots| && Carried(q.slots[k].row, STATE_VERSION) <==>
      0 <= k < |q.slots| && (!Imageless(q.slots[k].row) || k == DISC);
    forall k | 0 <= k < |q.slots| && !Imageless(q.slots[k].row)
      ensures ImagesNow(m, d)[k] == ImagesNow(m', e)[k] <==> Restores(q, e, live, m, k)
    {
    }
  }

  /** A state that is kept or sent elsewhere is filled with zeros; only run-ahead within the session
    * leaves what the buffer held. */
  lemma FilledUnlessRunAhead(q: Codec, d: Mount, m: Machine, unanswered: bool, ctx: Context, before: Bytes,
      after: Bytes)
    requires MountOk(d) && IsWord(m.diskIndex) && |m.images| == |q.slots|
    requires Serialized(q, d, m, SameSession(unanswered, ctx), before, after)
    ensures var w := |Current(q, d, m)|;
      forall i :: w <= i < STATE_SIZE ==>
        after[i] == (if unanswered || ctx.Normal? || ctx.RollbackNetplay? then 0 else before[i])
  {
    var w := |Current(q, d, m)|;
    forall i | w <= i < STATE_SIZE
      ensures after[i] == if SameSession(unanswered, ctx) then before[i] else 0
    {
      assert after[i] == after[w..STATE_SIZE][i - w];
      assert before[i] == before[w..STATE_SIZE][i - w];
    }
  }

  /** Two saves of the same machine into any two buffers of one size: saved to be kept or for
    * netplay they are equal; and a loader cannot tell one saved for run-ahead from it. */
  lemma ZeroFillUnobservable(q: Codec, d: Mount, m: Machine, ctx: Context, before1: Bytes, after1: Bytes,
      kept: Context, before2: Bytes, after2: Bytes, e: Mount, live: Machine)
    requires Honest(q) && Fits(q) && MountOk(d) && MountOk(e) && Shaped(q, m)
    requires |live.images| == |q.slots| && (kept.Normal? || kept.RollbackNetplay?)
    requires Serialized(q, d, m, SameSession(false, ctx), before1, after1)
    requires Serialized(q, d, m, SameSession(false, kept), before2, after2)
    ensures ctx.Normal? || ctx.RollbackNetplay? ==> after1[..STATE_SIZE] == after2[..STATE_SIZE]
    ensures var (ok1, m1) := Load(q, e, after1, live); var (ok2, m2) := Load(q, e, after2, live);
      && ok1 == ok2
      && (ok1 ==> |m1.images| == |m2.images| == |q.slots| && m1.diskIndex == m2.diskIndex && m1.timing == m2.timing)
      && (ok1 ==> forall k :: 0 <= k < |q.slots| && !Imageless(q.slots[k].row) ==> m1.images[k] == m2.images[k])
  {
    var w := Current(q, d, m);
    if ctx.Normal? || ctx.RollbackNetplay? {
      assert after1[..STATE_SIZE] == after1[..|w|] + after1[|w|..STATE_SIZE];
      assert after2[..STATE_SIZE] == after2[..|w|] + after2[|w|..STATE_SIZE];
    }
    CurrentLoads(q, d, m, e, live, after1);
    CurrentLoads(q, d, m, e, live, after2);
  }

  /** Where the disc words are, and what they say. */
  lemma DiscWordsWritten(q: Codec, d: Mount, m: Machine)
    requires Honest(q) && MountOk(d) && Shaped(q, m)
    ensures var b, p := Current(q, d, m), HEADER + Span(q, STATE_VERSION, DISC);
      && p + 16 <= |b|
      && WordAt(b, p) == (if d.cdMode then d.sessions else 0)
      && WordAt(b, p + 4) == (if d.cdMode then d.tracks else 0)
      && WordAt(b, p + 8) == (if d.cdMode then d.sectors else 0)
      && WordAt(b, p + 12) == m.diskIndex
  {
    var b, w := Current(q, d, m), Identity(d, m.diskIndex);
    assert Carried(q.slots[DISC].row, STATE_VERSION);
    assert ImagesNow(m, d)[DISC] == w;
    RowSlice(q, d, m, DISC);
    IdentityWords(d, m.diskIndex);
    SliceWords(b, HEADER + Span(q, STATE_VERSION, DISC), w);
  }

  /** A tagged chunk that does not begin with its magic word: the module is reset, and only the
    * word is stepped over (for the SD handles, the whole chunk). */
  lemma ForeignChunk(q: Codec, d: Mount, v: nat, blob: Bytes, k: nat, m: Machine, pos: nat)
    requires Honest(q) && k < ROWS && q.slots[k].row == TableRow(k) && k < |m.images|
    requires 4 <= q.slots[k].size && pos + q.slots[k].size <= |blob| && blob[pos..pos + 4] != q.slots[k].magic
    requires var c := TableRow(k).chunk;
      && FirstVersion(c) <= v
      && (c.HLECDStream? || c.CDBIOSBoot? || c.CDDriveTiming? || c.HungBlitter? || c.SDHandles?)
    ensures ReadRow(q, d, v, blob, k, m, pos)
         == Cursor(m.(images := m.images[k := q.reset(k, d.facts, m.images[k])]),
                   pos + if TableRow(k).chunk.SDHandles? then q.slots[k].size else 4)
  {
    TableAgrees(k, v);
  }

  // ---------------------------------------------------------------- two sessions, one state

  /** Modules of one byte each (tagged ones of four: their magic word), which hold what they
    * read. */
  function ToySize(k: nat): nat { if k == DISC then 16 else if HasMagic(TableRow(k)) then 4 else 1 }

  const TOY_MAGIC: Bytes := [1, 0, 0, 0]

  function ToyCodec(): (q: Codec)
    ensures |q.slots| == ROWS
    ensures forall k :: 0 <= k < ROWS ==> q.slots[k] == Slot(TableRow(k), ToySize(k), TOY_MAGIC)
    ensures forall k: nat, x, live, b :: q.settle(k, x, live, b) == if |b| == 4 then TOY_MAGIC else b
    ensures forall k: nat, x, live :: q.reset(k, x, live) == Zeros(ToySize(k))
    ensures (forall b, registers :: q.rate(b, registers) == b) && forall x, b :: q.work(x, b) == b
  {
    Codec(seq(ROWS, k requires 0 <= k < ROWS => Slot(TableRow(k), ToySize(k), TOY_MAGIC)),
          (k: nat, x: Facts, live: Bytes, b: Bytes) => if |b| == 4 then TOY_MAGIC else b,
          (k: nat, x: Facts, live: Bytes) => Zeros(ToySize(k)), (k: nat, b: Bytes) => b,
          (b: Bytes, registers: Bytes) => b, (x: Facts, b: Bytes) => b, (b: Bytes) => (0, 0))
  }

  function ToyMachine(n: byte): (m: Machine)
    ensures |m.images| == ROWS && m.diskIndex == 0
    ensures forall k :: 0 <= k < ROWS ==> m.images[k] == if HasMagic(TableRow(k)) then TOY_MAGIC else [n]
  {
    Machine(seq(ROWS, k requires 0 <= k < ROWS => if HasMagic(TableRow(k)) then TOY_MAGIC else [n]), 0, (0, 0))
  }

  lemma {:induction false} ToySpan(v: nat, k: nat)
    requires k <= ROWS
    ensures Span(ToyCodec(), v, k) <= 16 * k
  {
    if k > 0 {
      ToySpan(v, k - 1);
    }
  }

  lemma ToyFits()
    ensures Fits(ToyCodec())
  {
    forall v | STATE_MIN_VERSION <= v <= STATE_VERSION ensures Span(ToyCodec(), v, ROWS) <= 16 * ROWS {
      ToySpan(v, ROWS);
    }
  }

  lemma ToyIsHonest()
    ensures Honest(ToyCodec())
  {
    assert TOY_MAGIC[0] != Zeros(4)[0];
    TableQualifies(ToyCodec());
  }

  lemma ToyIsShaped(n: byte)
    ensures Shaped(ToyCodec(), ToyMachine(n))
  {
    var q, m := ToyCodec(), ToyMachine(n);
    forall k | 0 <= k < ROWS && !Imageless(q.slots[k].row)
      ensures |m.images[k]| == q.slots[k].size
      ensures HasMagic(q.slots[k].row) ==> 4 <= |m.images[k]| && m.images[k][..4] == q.slots[k].magic
    {
      TableIsInOrder(k);
    }
  }

  /** A toy state written with disc d mounted, zero-filled. */
  function ToyState(d: Mount): (blob: Bytes)
    requires MountOk(d)
  {
    var w := Current(ToyCodec(), d, ToyMachine(7));
    w + if |w| <= STATE_SIZE then Zeros(STATE_SIZE - |w|) else []
  }

  lemma ToyStateHolds(d: Mount)
    requires MountOk(d)
    ensures var w := Current(ToyCodec(), d, ToyMachine(7));
      |w| <= STATE_SIZE <= |ToyState(d)| && ToyState(d)[..|w|] == w
  {
    ToyIsHonest();
    ToyIsShaped(7);
    CurrentLength(ToyCodec(), d, ToyMachine(7));
    ToySpan(STATE_VERSION, ROWS);
  }

  lemma CurrentLength(q: Codec, d: Mount, m: Machine)
    requires Honest(q) && MountOk(d) && Shaped(q, m)
    ensures |Current(q, d, m)| == HEADER + Span(q, STATE_VERSION, |q.slots|)
  {
    PayloadSpan(q, STATE_VERSION, |q.slots|, ImagesNow(m, d), |q.slots|);
  }

  /** A refused load is not without effect: a state saved with a two-session disc, loaded with
    * another disc mounted, is refused, and main RAM is the saved one. */
  lemma RefusedLoadReplacesRAM()
    ensures var (ok, m') := Load(ToyCodec(), TOY_OTHER, ToyState(TOY_DISC), ToyMachine(9));
      !ok && |m'.images| > 0 && ToyMachine(9).images[0] == [9] && m'.images[0] == [7]
  {
    ToyFits();
    ToyIsHonest();
    ToyIsShaped(7);
    ToyStateHolds(TOY_DISC);
    FirstRowIsRAM();
    RefusedFirstRow(ToyCodec(), TOY_DISC, ToyMachine(7), TOY_OTHER, ToyMachine(9), ToyState(TOY_DISC));
  }

  const TOY_DISC := Mount(true, 2, 12, 250000, 1, "")
  const TOY_OTHER := Mount(true, 2, 9, 180000, 1, "")
  const TOY_CARTRIDGE := Mount(false, 0, 0, 0, 0, "")

  lemma FirstRowIsRAM()
    ensures TableRow(0) == Always(MainRAM)
  {
  }

  lemma RefusedFirstRow(q: Codec, d: Mount, m: Machine, e: Mount, live: Machine, blob: Bytes)
    requires Honest(q) && Fits(q) && MountOk(d) && MountOk(e) && Shaped(q, m) && |live.images| == |q.slots|
    requires |Current(q, d, m)| <= STATE_SIZE <= |blob| && blob[..|Current(q, d, m)|] == Current(q, d, m)
    requires e.cdMode && !SameIdentity(d, e) && !Imageless(q.slots[0].row)
    ensures var (ok, m') := Load(q, e, blob, live);
      !ok && |m'.images| > 0 && m'.images[0] == q.settle(0, e.facts, live.images[0], m.images[0])
  {
    OtherDiscRefused(q, d, m, e, live, blob);
  }

  /** Saving again can write other bytes: the same state loaded into a session without a CD unit
    * is accepted, and saved again it no longer names its disc. */
  lemma ResaveForgetsDisc()
    ensures var (ok, m') := Load(ToyCodec(), TOY_CARTRIDGE, ToyState(TOY_DISC), ToyMachine(9));
      && ok && |m'.images| == ROWS && IsWord(m'.diskIndex)
      && Current(ToyCodec(), TOY_CARTRIDGE, m') != Current(ToyCodec(), TOY_DISC, ToyMachine(7))
  {
    ToyFits();
    ToyIsHonest();
    ToyIsShaped(7);
    ToyStateHolds(TOY_DISC);
    CurrentLoads(ToyCodec(), TOY_DISC, ToyMachine(7), TOY_CARTRIDGE, ToyMachine(9), ToyState(TOY_DISC));
    ResaveIsIdentical(ToyCodec(), TOY_DISC, ToyMachine(7), TOY_CARTRIDGE, ToyMachine(9), ToyState(TOY_DISC));
  }

  // ---------------------------------------------------------------- the two entry points

  /** Every row up to the disc words is known to fit; the tagged tail is what needs checking. */
  lemma RoomFor(q: Codec, k: nat)
    requires Honest(q) && k < |q.slots|
    requires HEADER + Span(q, STATE_VERSION, DISC + 1) <= STATE_SIZE
    ensures Carried(q.slots[k].row, STATE_VERSION) ==>
      && (!Imageless(q.slots[k].row) || k == DISC)
      && (HasMagic(q.slots[k].row) || HEADER + Span(q, STATE_VERSION, k + 1) <= STATE_SIZE)
    ensures Span(q, STATE_VERSION, k + 1) <= Span(q, STATE_VERSION, |q.slots|)
  {
    SpanGrows(q, STATE_VERSION, k + 1, |q.slots|);
    if Carried(q.slots[k].row, STATE_VERSION) {
      if k <= DISC {
        SpanGrows(q, STATE_VERSION, k + 1, DISC + 1);
      }
    }
  }

  /** Copies one image to the cursor; `check` is the room test before a magic-tagged chunk. */
  method Put(data: array<byte>, pos: nat, b: Bytes, check: bool) returns (ok: bool, pos': nat)
    requires pos <= STATE_SIZE <= data.Length
    requires !check ==> pos + |b| <= STATE_SIZE
    modifies data
    ensures ok <==> pos + |b| <= STATE_SIZE
    ensures ok ==> pos' == pos + |b| && data[..pos'] == old(data[..pos]) + b
    ensures ok ==> forall i :: pos + |b| <= i < data.Length ==> data[i] == old(data[i])
  {
    if check && pos + |b| > STATE_SIZE {
      return false, pos;
    }
    ghost var before := data[..];
    for i := 0 to |b|
      invariant data[..pos] == before[..pos]
      invariant data[pos..pos + i] == b[..i]
      invariant forall j :: pos + i <= j < data.Length ==> data[j] == before[j]
    {
      data[pos + i] := b[i];
      assert data[pos..pos + i + 1] == data[pos..pos + i] + [b[i]];
    }
    ok, pos' := true, pos + |b|;
    assert data[..pos'] == data[..pos] + data[pos..pos'];
  }

  lemma PayloadStep(head: Bytes, slots: seq<Slot>, v: nat, img: seq<Bytes>, k: nat)
    requires k < |slots| <= |img|
    ensures head + Payload(slots, v, img, k + 1)
         == (head + Payload(slots, v, img, k)) + (if Carried(slots[k].row, v) then img[k] else [])
  {
  }

  class Core {
    const q: Codec
    var images: seq<Bytes>
    var diskIndex: int
    var timing: (int, int)

    constructor (q: Codec, images: seq<Bytes>)
      ensures this.q == q && View() == Machine(images, 0, (0, 0))
    {
      this.q, this.images, diskIndex, timing := q, images, 0, (0, 0);
    }

    ghost function View(): Machine
      reads this
    {
      Machine(images, diskIndex, timing)
    }

    /** One row of the current layout, at the cursor. */
    method WriteRow(data: array<byte>, d: Mount, ghost head: Bytes, ghost img: seq<Bytes>, k: nat, from: nat)
      returns (ok: bool, pos: nat)
      requires Honest(q) && MountOk(d) && IsWord(diskIndex) && |img| == |images| == |q.slots| && k < |q.slots|
      requires img[k] == if k == DISC then Identity(d, diskIndex) else images[k]
      requires !q.slots[k].row.kind.Staging? ==> |img[k]| == q.slots[k].size
      requires HEADER + Span(q, STATE_VERSION, DISC + 1) <= STATE_SIZE <= data.Length
      requires from == HEADER + Span(q, STATE_VERSION, k) <= STATE_SIZE
      requires data[..from] == head + Payload(q.slots, STATE_VERSION, img, k)
      modifies data
      ensures ok <==> HEADER + Span(q, STATE_VERSION, k + 1) <= STATE_SIZE
      ensures ok ==> pos == HEADER + Span(q, STATE_VERSION, k + 1)
      ensures ok ==> data[..pos] == head + Payload(q.slots, STATE_VERSION, img, k + 1)
      ensures ok ==> forall i :: pos <= i < data.Length ==> data[i] == old(data[i])
    {
      RoomFor(q, k);
      PayloadStep(head, q.slots, STATE_VERSION, img, k);
      if !Carried(q.slots[k].row, STATE_VERSION) {
        return true, from;
      }
      ok, pos := Put(data, from, if k == DISC then Identity(d, diskIndex) else images[k], HasMagic(q.slots[k].row));
    }

    /** A header, then each row of the current layout at the moving cursor. */
    method WriteRows(data: array<byte>, d: Mount, head: Bytes, ghost img: seq<Bytes>) returns (ok: bool, pos: nat)
      requires Honest(q) && MountOk(d) && IsWord(diskIndex) && |head| == HEADER
      requires |img| == |images| == |q.slots|
      requires forall k :: 0 <= k < |img| ==> img[k] == if k == DISC then Identity(d, diskIndex) else images[k]
      requires forall k :: 0 <= k < |img| && !q.slots[k].row.kind.Staging? ==> |img[k]| == q.slots[k].size
      requires HEADER + Span(q, STATE_VERSION, DISC + 1) <= STATE_SIZE <= data.Length
      modifies data
      ensures ok <==> HEADER + Span(q, STATE_VERSION, |q.slots|) <= STATE_SIZE
      ensures ok ==> pos == HEADER + Span(q, STATE_VERSION, |q.slots|)
      ensures ok ==> data[..pos] == head + Payload(q.slots, STATE_VERSION, img, |q.slots|)
      ensures ok ==> forall i :: pos <= i < data.Length ==> data[i] == old(data[i])
    {
      ghost var before := data[..];
      ok, pos := Put(data, 0, head, false);
      assert data[..pos] == head + Payload(q.slots, STATE_VERSION, img, 0);
      for k := 0 to |q.slots|
        invariant pos == HEADER + Span(q, STATE_VERSION, k) <= STATE_SIZE
        invariant data[..pos] == head + Payload(q.slots, STATE_VERSION, img, k)
        invariant forall i :: pos <= i < data.Length ==> data[i] == before[i]
      {
        SpanGrows(q, STATE_VERSION, k + 1, |q.slots|);
        ok, pos := WriteRow(data, d, head, img, k, pos);
        if !ok {
          return;
        }
      }
      return true, pos;
    }

    /** retro_serialize: the rows, then the zero fill unless the frontend asked for a
      * same-session run-ahead state. */
    method Serialize(data: array<byte>, d: Mount, unanswered: bool, ctx: Context) returns (ok: bool)
      requires Honest(q) && MountOk(d) && Shaped(q, View())
      requires HEADER + Span(q, STATE_VERSION, DISC + 1) <= STATE_SIZE
      modifies data
      ensures ok <==> data.Length >= STATE_SIZE && HEADER + Span(q, STATE_VERSION, |q.slots|) <= STATE_SIZE
      ensures ok ==> Serialized(q, d, View(), SameSession(unanswered, ctx), old(data[..]), data[..])
      ensures data.Length < STATE_SIZE ==> data[..] == old(data[..])
    {
      PayloadSpan(q, STATE_VERSION, |q.slots|, ImagesNow(View(), d), |q.slots|);
      if data.Length < STATE_SIZE {
        return false;
      }
      ghost var before := data[..];
      var written;
      ghost var img := ImagesNow(View(), d);
      ok, written := WriteRows(data, d, Header(STATE_VERSION), img);
      if !ok {
        return;
      }
      ghost var w := Current(q, d, View());
      if !SameSession(unanswered, ctx) {
        var _, end := Put(data, written, Zeros(STATE_SIZE - written), false);
        ok := true;
        assert data[..written] == data[..end][..written];
        assert data[written..STATE_SIZE] == data[..end][written..];
      } else {
        assert data[written..STATE_SIZE] == before[written..STATE_SIZE];
      }
    }

    /** One row of retro_unserialize. */
    method LoadRow(data: array<byte>, d: Mount, v: nat, k: nat, pos: nat) returns (refused: bool, pos': nat)
      requires Honest(q) && k < |q.slots| == |images|
      requires Carried(q.slots[k].row, v) ==> pos + q.slots[k].size <= data.Length
      modifies this
      ensures |images| == |q.slots|
      ensures ReadRow(q, d, v, data[..], k, old(View()), pos) == if refused then Refused(View())
        else Cursor(View(), pos')
    {
      var row := q.slots[k].row;
      refused, pos' := false, pos;
      if !Carried(row, v) {
        if !row.kept {
          images := images[k := q.reset(k, d.facts, images[k])];
        }
        return;
      }
      if row.kind.Disc? {
        var blob := data[..];
        if d.cdMode && (WordAt(blob, pos) != d.sessions || WordAt(blob, pos + 4) != d.tracks
                        || WordAt(blob, pos + 8) != d.sectors) {
          refused := true;
          return;
        }
        if WordAt(blob, pos + 12) < d.images {
          diskIndex := WordAt(blob, pos + 12);
        }
        pos' := pos + 16;
      } else if HasMagic(row) && data[pos..pos + 4] != q.slots[k].magic {
        images := images[k := q.reset(k, d.facts, images[k])];
        pos' := pos + if row.kind.Handles? then q.slots[k].size else 4;
      } else if row.kind.Staging? {
        images := IdleDrive(q, Machine(images, diskIndex, timing)).images;
        pos' := pos + q.slots[k].size;
      } else {
        images := images[k := q.settle(k, d.facts, images[k], data[pos..pos + q.slots[k].size])];
        if k == DAC_REGISTERS {
          images := images[I2S_PHASE := q.rate(images[I2S_PHASE], data[pos..pos + q.slots[k].size])];
        }
        pos' := pos + q.slots[k].size;
      }
    }

    /** The next row of a read that started from m. */
    method LoadNext(data: array<byte>, d: Mount, v: nat, ghost m: Machine, k: nat, pos: nat)
      returns (refused: bool, pos': nat)
      requires Honest(q) && k < |q.slots| == |images| && HEADER + Span(q, v, |q.slots|) <= data.Length
      requires ReadRows(q, d, v, data[..], m, k) == Cursor(View(), pos)
      modifies this
      ensures |images| == |q.slots|
      ensures ReadRows(q, d, v, data[..], m, k + 1) == if refused then Refused(View()) else Cursor(View(), pos')
    {
      NeverOverruns(q, d, v, data[..], m, k);
      SpanGrows(q, v, k + 1, |q.slots|);
      refused, pos' := LoadRow(data, d, v, k, pos);
    }

    method LoadRows(data: array<byte>, d: Mount, v: nat) returns (refused: bool)
      requires Honest(q) && |images| == |q.slots| && HEADER + Span(q, v, |q.slots|) <= data.Length
      modifies this
      ensures |images| == |q.slots|
      ensures var r := ReadRows(q, d, v, data[..], old(View()), |q.slots|);
        !r.Overrun? && r.Refused? == refused && r.machine == View()
    {
      ghost var start := View();
      var pos: nat := HEADER;
      for k := 0 to |q.slots|
        invariant |images| == |q.slots|
        invariant ReadRows(q, d, v, data[..], start, k) == Cursor(View(), pos)
      {
        refused, pos := LoadNext(data, d, v, start, k, pos);
        if refused {
          StopsOnce(q, d, v, data[..], start, k + 1, |q.slots|);
          return;
        }
      }
      return false;
    }

    /** retro_unserialize. */
    method Unserialize(data: array<byte>, d: Mount) returns (ok: bool)
      requires Honest(q) && Fits(q) && |images| == |q.slots|
      modifies this
      ensures (ok, View()) == Load(q, d, data[..], old(View()))
    {
      if !HeaderAccepted(data[..]) {
        return false;
      }
      var v := WordAt(data[..], 4);
      assert STATE_MIN_VERSION <= v <= STATE_VERSION;
      var refused := LoadRows(data, d, v);
      if !refused {
        timing := q.memcon(images[1]);
        images := images[0 := q.work(d.facts, images[0])];
      }
      return !refused;
    }
  }
}
