/** When the LAN host picker is rebuilt (the latch in retro_run, libretro.c; the changed flag of
  * src/jerry/jlink.c and the peer table of src/jerry/jlink_discover.c).
  *
  * The discovery flag is cleared by reading it, a rebuild is allowed once in two seconds, and
  * the clock is a 32-bit count of milliseconds that wraps.
  */
module HostPicker {
  import opened Common

  const CLOCK := 0x1_0000_0000
  const REBUILD_MS := 2000
  const JLINK_DISC_MAX_PEERS := 8
  const JLINK_DISC_EXPIRE_MS := 10000

  /** A peer's identity in the table.  Its name and device are not part of it. */
  datatype Peer = Peer(addr: string, port: int)

  /** One row of the discovery table; `lastSeen` is a reading of the wrapping clock. */
  datatype Entry = Entry(peer: Peer, name: string, voiceModem: bool, lastSeen: int)

  /** `table` is the discovery table, `published` the peers the picker was last built from.
    * `time` is the unbounded time of the last frame and `lastTime` that of the last rebuild; the
    * core sees only their low 32 bits. */
  datatype State = State(table: seq<Entry>, changed: bool, dirty: bool, lastMs: int,
                         enabled: bool, published: seq<Peer>, time: nat, lastTime: nat, rebuilds: nat)

  function Wrapped(now: int, since: int): (d: int)
    ensures 0 <= d < CLOCK
  {
    (now - since) % CLOCK
  }

  predicate RebuildsAt(s: State, t: nat) {
    var entered := s.enabled || s.dirty;
    entered && (s.dirty || s.changed) && Wrapped(t % CLOCK, s.lastMs) >= REBUILD_MS
  }

  /** The block in retro_run, at time t. */
  function Frame(s: State, t: nat): State {
    var s := s.(time := t);
    if !s.enabled && !s.dirty then s
    else
      var u := s.(dirty := s.dirty || s.changed, changed := false);
      if u.dirty && Wrapped(t % CLOCK, u.lastMs) >= REBUILD_MS then
        u.(published := PeersOf(u.table), lastMs := t % CLOCK, lastTime := t, dirty := false,
           rebuilds := u.rebuilds + 1)
      else u
  }

  // ---------------------------------------------------------------- the peer table

  function PeersOf(table: seq<Entry>): (ps: seq<Peer>)
    ensures |ps| == |table| && forall i :: 0 <= i < |ps| ==> ps[i] == table[i].peer
  {
    seq(|table|, i requires 0 <= i < |table| => table[i].peer)
  }

  function IndexOf(table: seq<Entry>, p: Peer): (i: nat)
    ensures i <= |table| && (i < |table| ==> table[i].peer == p)
    ensures forall j :: 0 <= j < i ==> table[j].peer != p
  {
    if table == [] then 0 else if table[0].peer == p then 0 else 1 + IndexOf(table[1..], p)
  }

  /** JLinkDiscPeerSeen: the table and whether it reports a change.  A refresh keeps the name. */
  function Seen(table: seq<Entry>, e: Entry): (seq<Entry>, bool) {
    var i := IndexOf(table, e.peer);
    if e.peer.addr == "" then (table, false)
    else if i < |table| then (table[i := table[i].(voiceModem := e.voiceModem, lastSeen := e.lastSeen)], false)
    else if |table| >= JLINK_DISC_MAX_PEERS then (table, false)
    else (table + [e], true)
  }

  predicate Alive(e: Entry, now: int) { Wrapped(now, e.lastSeen) < JLINK_DISC_EXPIRE_MS }

  /** Of the first n rows, those seen recently enough, in order. */
  function Kept(table: seq<Entry>, now: int, n: nat): (r: seq<Entry>)
    requires n <= |table|
    ensures |r| <= n
  {
    if n == 0 then [] else Kept(table, now, n - 1) + if Alive(table[n-1], now) then [table[n-1]] else []
  }

  /** JLinkDiscPeerExpire. */
  function Expired(table: seq<Entry>, now: int): (seq<Entry>, bool) {
    (Kept(table, now, |table|), |Kept(table, now, |table|)| < |table|)
  }

  lemma {:induction false} KeptAll(table: seq<Entry>, now: int, n: nat)
    requires n <= |table| && |Kept(table, now, n)| == n
    ensures Kept(table, now, n) == table[..n]
  {
    if n > 0 {
      KeptAll(table, now, n - 1);
      assert table[..n] == table[..n-1] + [table[n-1]];
    }
  }

  /** Expiry reports a change exactly when the set of peers changed. */
  lemma ExpiryIsReported(table: seq<Entry>, now: int)
    ensures var (next, reported) := Expired(table, now); reported <==> PeersOf(next) != PeersOf(table)
  {
    if |Kept(table, now, |table|)| == |table| {
      KeptAll(table, now, |table|);
    }
  }

  /** A beacon reports a change exactly when the set of peers changed.  The picker's labels also
    * name the device, and a beacon that changes only that is not reported. */
  lemma RefreshHidesDevice(table: seq<Entry>, e: Entry)
    ensures var (next, reported) := Seen(table, e); var i := IndexOf(table, e.peer);
      && (reported <==> PeersOf(next) != PeersOf(table))
      && ((exists k :: 0 <= k < |table| && k < |next| && next[k].voiceModem != table[k].voiceModem)
            <==> e.peer.addr != "" && i < |table| && table[i].voiceModem != e.voiceModem)
  {
    var (next, _) := Seen(table, e);
    var i := IndexOf(table, e.peer);
    if e.peer.addr != "" && i < |table| && table[i].voiceModem != e.voiceModem {
      assert next[i].voiceModem != table[i].voiceModem;
    }
  }

  /** What a beacon does: a known peer's row takes its device and its time, a new peer is added
    * behind the others while there is room for eight, and nothing else changes. */
  lemma BeaconIsKept(table: seq<Entry>, e: Entry, i: nat)
    requires i <= |table| && (i < |table| ==> table[i].peer == e.peer)
    requires forall j :: 0 <= j < i ==> table[j].peer != e.peer
    ensures var next := Seen(table, e).0;
      if e.peer.addr == "" || (i == |table| && |table| >= 8) then next == table
      else
        && |next| == (if i < |table| then |table| else |table| + 1)
        && next[i] == (if i < |table| then Entry(e.peer, table[i].name, e.voiceModem, e.lastSeen) else e)
        && forall j :: 0 <= j < |table| && j != i ==> next[j] == table[j]
  {
    assert IndexOf(table, e.peer) == i;
  }

  /** Expiry takes the rows one by one and keeps those heard less than ten seconds ago on the
    * wrapping clock; the others keep their order. */
  lemma {:induction false} ExpiryDistributes(a: seq<Entry>, b: seq<Entry>, now: int)
    ensures Expired(a + b, now).0 == Expired(a, now).0 + Expired(b, now).0
    decreases |b|
  {
    if b == [] {
      assert a + b == a;
    } else {
      var front := b[..|b|-1];
      ExpiryDistributes(a, front, now);
      assert (a + b)[..|a + b|-1] == a + front;
      KeptPrefix(a + b, a + front, now, |a + front|);
      KeptPrefix(b, front, now, |front|);
    }
  }

  lemma {:induction false} KeptPrefix(a: seq<Entry>, b: seq<Entry>, now: int, n: nat)
    requires n <= |a| && n <= |b| && a[..n] == b[..n]
    ensures Kept(a, now, n) == Kept(b, now, n)
  {
    if n > 0 {
      assert a[..n-1] == a[..n][..n-1] == b[..n-1];
      assert a[n-1] == a[..n][n-1] == b[n-1];
      KeptPrefix(a, b, now, n - 1);
    }
  }

  lemma OneExpires(e: Entry, now: int)
    ensures Expired([e], now).0 == if (now - e.lastSeen) % 0x1_0000_0000 < 10000 then [e] else []
  {
    assert Kept([e], now, 1) == Kept([e], now, 0) + if Alive(e, now) then [e] else [];
  }

  lemma {:induction false} RecentRowStays(table: seq<Entry>, i: nat, now: int, n: nat)
    requires i < n <= |table| && (now - table[i].lastSeen) % 0x1_0000_0000 < 10000
    ensures exists j :: 0 <= j < |Kept(table, now, n)| && Kept(table, now, n)[j] == table[i]
  {
    if i == n - 1 {
      assert Kept(table, now, n)[|Kept(table, now, n - 1)|] == table[i];
    } else {
      RecentRowStays(table, i, now, n - 1);
      var j :| 0 <= j < |Kept(table, now, n - 1)| && Kept(table, now, n - 1)[j] == table[i];
      assert Kept(table, now, n)[j] == table[i];
    }
  }

  /** Two beacons of one peer: its device changes in the table and the picker is not told. */
  lemma DeviceChangeGoesUnreported(now: int)
    ensures var p := Peer("192.168.0.7", 42171);
      var one := Seen([], Entry(p, "den", false, now)).0;
      var two := Seen(one, Entry(p, "den", true, now));
      one == [Entry(p, "den", false, now)] && two == ([Entry(p, "den", true, now)], false)
  {
    var p := Peer("192.168.0.7", 42171);
    var e, f := Entry(p, "den", false, now), Entry(p, "den", true, now);
    assert |p.addr| == 11;
    var table: seq<Entry> := [];
    assert IndexOf(table, p) == 0 && Seen(table, e).0 == [e];
    assert IndexOf([e], p) == 0 && [e][0 := f] == [f];
  }

  /** The fixed array behind the table. */
  class Discovery {
    const peers: array<Entry>
    var count: nat

    ghost predicate Valid()
      reads this
    {
      peers.Length == JLINK_DISC_MAX_PEERS && count <= peers.Length
    }

    ghost function Table(): seq<Entry>
      requires Valid()
      reads this, peers
    {
      peers[..count]
    }

    constructor ()
      ensures Valid() && fresh(peers) && Table() == []
    {
      peers := new Entry[JLINK_DISC_MAX_PEERS](_ => Entry(Peer("", 0), "", false, 0));
      count := 0;
    }

    /** JLinkDiscPeerSeen. */
    method PeerSeen(e: Entry) returns (reported: bool)
      requires Valid()
      modifies this`count, peers
      ensures Valid() && (Table(), reported) == Seen(old(Table()), e)
    {
      if e.peer.addr == "" {
        return false;
      }
      ghost var before := Table();
      var i := 0;
      while i < count && peers[i].peer != e.peer
        invariant i <= count && i <= IndexOf(before, e.peer)
      {
        assert peers[i] == before[i];
        i := i + 1;
      }
      assert i < count ==> peers[i] == before[i];
      if i < count {
        peers[i] := peers[i].(voiceModem := e.voiceModem, lastSeen := e.lastSeen);
        assert Table() == before[i := before[i].(voiceModem := e.voiceModem, lastSeen := e.lastSeen)];
        return false;
      }
      if count >= JLINK_DISC_MAX_PEERS {
        return false;
      }
      peers[count] := e;
      count := count + 1;
      assert Table() == before + [e];
      return true;
    }

    /** The memmove over one row. */
    method RemoveAt(i: nat)
      requires Valid() && i < count
      modifies this`count, peers
      ensures Valid() && Table() == old(Table()[..i]) + old(Table()[i + 1..])
    {
      ghost var before := Table();
      var k := i;
      while k + 1 < count
        invariant i <= k < count == |before|
        invariant forall j :: 0 <= j < i ==> peers[j] == before[j]
        invariant forall j :: i <= j < k ==> peers[j] == before[j + 1]
        invariant forall j :: k < j < count ==> peers[j] == before[j]
      {
        peers[k] := peers[k + 1];
        k := k + 1;
      }
      count := count - 1;
      assert Table() == before[..i] + before[i + 1..];
    }

    /** One row of the expiry loop. */
    method ExpireRow(i: nat, now: int, ghost before: seq<Entry>, ghost k: nat) returns (gone: bool)
      requires Valid() && i < count && k < |before| && Partway(Table(), before, now, k, i)
      modifies this`count, peers
      ensures Valid() && count == old(count) - (if gone then 1 else 0)
      ensures Partway(Table(), before, now, k + 1, if gone then i else i + 1)
    {
      PartwayStep(Table(), before, now, k, i);
      assert peers[i] == Table()[i];
      gone := Wrapped(now, peers[i].lastSeen) >= JLINK_DISC_EXPIRE_MS;
      if gone {
        RemoveAt(i);
      }
    }

    /** The loop of JLinkDiscPeerExpire: the rows removed in place, one at a time. */
    method ExpireRows(now: int) returns (reported: bool)
      requires Valid()
      modifies this`count, peers
      ensures Valid() && Partway(Table(), old(Table()), now, old(count), count)
      ensures reported == (count < old(count))
    {
      ghost var before, k := Table(), 0;
      var i := 0;
      reported := false;
      while i < count
        invariant Valid() && i <= count && count - i == |before| - k && reported == (i < k)
        invariant Partway(Table(), before, now, k, i)
        decreases count - i
      {
        var gone := ExpireRow(i, now, before, k);
        if gone {
          reported := true;
        } else {
          i := i + 1;
        }
        k := k + 1;
      }
    }

    /** JLinkDiscPeerExpire. */
    method ExpirePeers(now: int) returns (reported: bool)
      requires Valid()
      modifies this`count, peers
      ensures Valid() && (Table(), reported) == Expired(old(Table()), now)
    {
      ghost var before := Table();
      reported := ExpireRows(now);
      AllLooked(Table(), before, now, |before|, count);
    }
  }

  /** The first k rows looked at, and i of them left in front. */
  ghost predicate Partway(table: seq<Entry>, before: seq<Entry>, now: int, k: nat, i: nat) {
    && i <= k <= |before| && |table| == i + (|before| - k) && i == |Kept(before, now, k)|
    && (forall j :: 0 <= j < i ==> table[j] == Kept(before, now, k)[j])
    && (forall j :: i <= j < |table| ==> table[j] == before[j + (k - i)])
  }

  lemma PartwayStep(table: seq<Entry>, before: seq<Entry>, now: int, k: nat, i: nat)
    requires Partway(table, before, now, k, i) && k < |before|
    ensures i < |table| && table[i] == before[k]
    ensures if Alive(table[i], now) then Partway(table, before, now, k + 1, i + 1)
            else Partway(table[..i] + table[i + 1..], before, now, k + 1, i)
  {
  }

  lemma AllLooked(table: seq<Entry>, before: seq<Entry>, now: int, k: nat, i: nat)
    requires Partway(table, before, now, k, i) && i == |table|
    ensures k == |before| && table == Kept(before, now, k)
  {
  }

  // ---------------------------------------------------------------- runs

  datatype Event =
    | Beacon(e: Entry)
    | Expiry(now: int)
    | SetMode(enabled: bool)
    | Tick(t: nat)
    | StartDiscovery             // JLinkDiscStart with new parameters: the table is emptied

  function Next(s: State, e: Event): State {
    match e
    case Beacon(b) => s.(table := Seen(s.table, b).0, changed := s.changed || Seen(s.table, b).1)
    case Expiry(now) => s.(table := Expired(s.table, now).0, changed := s.changed || Expired(s.table, now).1)
    case SetMode(b) => s.(enabled := b)
    case Tick(t) => Frame(s, t)
    case StartDiscovery => s.(table := [])
  }

  function PowerOn(): State { State([], false, false, 0, false, [], 0, 0, 0) }

  function Exec(s: State, run: seq<Event>): State {
    if run == [] then s else Next(Exec(s, run[..|run|-1]), run[|run|-1])
  }

  /** The last beacon of a peer in a run, since discovery was last restarted. */
  function LastBeacon(run: seq<Event>, p: Peer): Option<Entry> {
    if run == [] then None
    else match run[|run|-1]
      case Beacon(e) => if e.peer == p then Some(e) else LastBeacon(run[..|run|-1], p)
      case StartDiscovery => None
      case _ => LastBeacon(run[..|run|-1], p)
  }

  /** Every row is about another peer, with the device and time of that peer's last beacon. */
  ghost predicate RowsCurrent(table: seq<Entry>, run: seq<Event>) {
    && |table| <= 8
    && DistinctPeers(table)
    && forall i :: 0 <= i < |table| ==> RowCurrent(table[i], run)
  }

  ghost predicate DistinctPeers(table: seq<Entry>) {
    forall i, j :: 0 <= i < j < |table| ==> table[i].peer != table[j].peer
  }

  ghost predicate RowCurrent(row: Entry, run: seq<Event>) {
    var last := LastBeacon(run, row.peer);
    row.peer.addr != "" && last.Some? && row.lastSeen == last.value.lastSeen && row.voiceModem == last.value.voiceModem
  }

  lemma {:induction false} KeptRows(table: seq<Entry>, now: int, n: nat)
    requires n <= |table| && DistinctPeers(table)
    ensures DistinctPeers(Kept(table, now, n)) && forall r :: r in Kept(table, now, n) ==> r in table[..n]
  {
    if n > 0 {
      KeptRows(table, now, n - 1);
      var front := Kept(table, now, n - 1);
      assert table[..n] == table[..n-1] + [table[n-1]];
      forall i | 0 <= i < |front| ensures front[i].peer != table[n-1].peer {
        assert front[i] in table[..n-1];
      }
    }
  }

  lemma BeaconKeepsRows(table: seq<Entry>, run: seq<Event>, b: Entry)
    requires RowsCurrent(table, run)
    ensures RowsCurrent(Seen(table, b).0, run + [Beacon(b)])
  {
    var i, next := IndexOf(table, b.peer), Seen(table, b).0;
    assert (run + [Beacon(b)])[..|run|] == run;
    BeaconIsKept(table, b, i);
    forall j | 0 <= j < |next| ensures RowCurrent(next[j], run + [Beacon(b)]) {
      if j < |table| {
        assert RowCurrent(table[j], run);
      }
    }
  }

  lemma {:induction false} KeptAreRecent(table: seq<Entry>, now: int, n: nat)
    requires n <= |table|
    ensures forall r :: r in Kept(table, now, n) ==> (now - r.lastSeen) % 0x1_0000_0000 < 10000
  {
    if n > 0 {
      KeptAreRecent(table, now, n - 1);
    }
  }

  lemma ExpiryKeepsRows(table: seq<Entry>, run: seq<Event>, now: int)
    requires RowsCurrent(table, run)
    ensures RowsCurrent(Expired(table, now).0, run + [Expiry(now)])
  {
    var more := run + [Expiry(now)];
    assert more[..|run|] == run;
    KeptRows(table, now, |table|);
    assert table[..|table|] == table;
    forall r | r in Kept(table, now, |table|) ensures RowCurrent(r, more) {
      assert r in table && RowCurrent(r, run);
    }
  }

  lemma SameRows(table: seq<Entry>, run: seq<Event>, e: Event)
    requires RowsCurrent(table, run) && (e.SetMode? || e.Tick?)
    ensures RowsCurrent(table, run + [e])
  {
    assert (run + [e])[..|run|] == run;
    forall i | 0 <= i < |table| ensures RowCurrent(table[i], run + [e]) {
      assert RowCurrent(table[i], run);
    }
  }

  ghost predicate AllRecent(table: seq<Entry>, now: int) {
    forall r :: r in table ==> (now - r.lastSeen) % 0x1_0000_0000 < 10000
  }

  /** Over every run: the table has at most one row a peer, eight in all, and each says what its
    * peer's last beacon said; and after an expiry none of those beacons is ten seconds old. */
  lemma {:induction false} RowsFollowBeacons(run: seq<Event>)
    ensures RowsCurrent(Exec(PowerOn(), run).table, run)
    ensures run != [] && run[|run|-1].Expiry? ==> AllRecent(Exec(PowerOn(), run).table, run[|run|-1].now)
  {
    if run != [] {
      var past, e := run[..|run|-1], run[|run|-1];
      RowsFollowBeacons(past);
      var table := Exec(PowerOn(), past).table;
      assert past + [e] == run;
      match e
      case Beacon(b) => BeaconKeepsRows(table, past, b);
      case Expiry(now) =>
        ExpiryKeepsRows(table, past, now);
        KeptAreRecent(table, now, |table|);
      case StartDiscovery =>
      case _ => SameRows(table, past, e);
    }
  }

  ghost predicate Clocked(s: State) {
    s.lastMs == s.lastTime % CLOCK && s.lastTime <= s.time
  }

  /** A change the picker does not show yet is still announced, by the flag or by the latch. */
  ghost predicate NothingLost(s: State) {
    s.published != PeersOf(s.table) ==> s.changed || s.dirty
  }

  /** A peer that has room, or was known, is still listed after an expiry within ten seconds of its
    * beacon, whenever it was first heard. */
  lemma HeardPeerStays(s: State, e: Entry, now: int)
    requires e.peer.addr != "" && (|s.table| < 8 || e.peer in PeersOf(s.table))
    requires (now - e.lastSeen) % 0x1_0000_0000 < 10000
    ensures e.peer in PeersOf(Next(Next(s, Beacon(e)), Expiry(now)).table)
  {
    var table := s.table;
    var i := IndexOf(table, e.peer);
    assert i == |table| ==> forall j :: 0 <= j < |table| ==> PeersOf(table)[j] != e.peer;
    BeaconIsKept(table, e, i);
    var next := Seen(table, e).0;
    RecentRowStays(next, i, now, |next|);
    var j :| 0 <= j < |Kept(next, now, |next|)| && Kept(next, now, |next|)[j] == next[i];
    assert PeersOf(Kept(next, now, |next|))[j] == e.peer;
  }

  /** Frames never run backwards. */
  ghost predicate Forward(s: State, run: seq<Event>) {
    run != [] ==> Forward(s, run[..|run|-1])
                  && (run[|run|-1].Tick? ==> run[|run|-1].t >= Exec(s, run[..|run|-1]).time)
  }

  /** The run's frames are less than 2^32 - 2000 ms apart. */
  ghost predicate Steady(s: State, run: seq<Event>) {
    run != [] ==> Steady(s, run[..|run|-1])
                  && (run[|run|-1].Tick? ==> run[|run|-1].t < Exec(s, run[..|run|-1]).time + CLOCK - REBUILD_MS)
  }

  lemma {:induction false} RunKeepsClock(s: State, run: seq<Event>)
    requires Clocked(s) && Forward(s, run)
    ensures Clocked(Exec(s, run)) && Exec(s, run).rebuilds >= s.rebuilds
  {
    if run != [] {
      RunKeepsClock(s, run[..|run|-1]);
    }
  }

  /** Where every run starts: nothing shown, nothing to announce, the clock at zero. */
  lemma NothingToAnnounce()
    ensures var s := PowerOn();
      Clocked(s) && NothingLost(s) && s.published == [] && s.table == [] && !s.changed && !s.dirty && !s.enabled
  {
  }

  /** Whether a restart now would be noticed: the picker shows no peers, or some change is
    * already waiting. */
  predicate RestartNoticed(s: State) { s.published == [] || s.changed || s.dirty }

  /** A restart empties the table without raising the flag, so it is announced exactly then. */
  lemma RestartIsSilent(s: State)
    requires NothingLost(s)
    ensures NothingLost(Next(s, StartDiscovery)) <==> RestartNoticed(s)
  {
  }

  /** A restart that was not noticed, and since then no peer heard and none of those that were
    * heard expired. */
  ghost predicate Silenced(s: State, run: seq<Event>) {
    run != [] &&
    var past := run[..|run|-1];
    match run[|run|-1]
      case StartDiscovery => !RestartNoticed(Exec(s, past))
      case Beacon(e) => Silenced(s, past) && e.peer.addr == ""
      case _ => Silenced(s, past)
  }

  /** While silenced: peers are shown, the table is empty, and nothing announces it. */
  ghost predicate Quiet(s: State) {
    s.published != [] && s.table == [] && !s.changed && !s.dirty
  }

  lemma StepAnnounces(s: State, e: Event)
    requires NothingLost(s) && (e.StartDiscovery? ==> RestartNoticed(s))
    ensures NothingLost(Next(s, e))
  {
    match e
    case Beacon(b) => RefreshHidesDevice(s.table, b);
    case Expiry(now) => ExpiryIsReported(s.table, now);
    case _ =>
  }

  lemma StepQuiet(s: State, e: Event)
    requires Quiet(s)
    ensures if e.Beacon? && e.e.peer.addr != "" then NothingLost(Next(s, e)) else Quiet(Next(s, e))
  {
  }

  /** No change of the peer set is lost, whatever the frame times, mode changes, beacons and
    * expiries, and restarts of discovery included, with one exception and no other: after a
    * restart that nothing announced, until the next peer is heard. */
  lemma {:induction false} NoChangeLost(s: State, run: seq<Event>)
    requires NothingLost(s)
    ensures NothingLost(Exec(s, run)) <==> !Silenced(s, run)
    ensures Silenced(s, run) ==> Quiet(Exec(s, run))
  {
    if run != [] {
      var past, e := run[..|run|-1], run[|run|-1];
      NoChangeLost(s, past);
      var p := Exec(s, past);
      if Silenced(s, past) {
        StepQuiet(p, e);
      } else if e.StartDiscovery? && !RestartNoticed(p) {
      } else {
        StepAnnounces(p, e);
      }
    }
  }

  /** The exception happens: a peer is heard and shown, discovery is restarted, and the picker
    * goes on showing a peer the table no longer has. */
  lemma RestartedPickerIsStale()
    ensures var p := Peer("192.168.0.7", 42171);
      var run := [SetMode(true), Beacon(Entry(p, "den", false, 100)), Tick(2000), StartDiscovery, Tick(9000)];
      var s := Exec(PowerOn(), run);
      s.published == [p] && s.table == [] && !NothingLost(s)
  {
    var p := Peer("192.168.0.7", 42171);
    var e := Entry(p, "den", false, 100);
    var run := [SetMode(true), Beacon(e), Tick(2000), StartDiscovery, Tick(9000)];
    assert run[..4][..3][..2][..1][..0] == [];
    assert Exec(PowerOn(), run[..1]) == PowerOn().(enabled := true);
    assert run[..2][..1] == run[..1];
    assert Exec(PowerOn(), run[..2]) == PowerOn().(enabled := true, table := [e], changed := true);
    assert run[..3][..2] == run[..2] && PeersOf([e]) == [p];
    var shown := Exec(PowerOn(), run[..3]);
    assert shown.published == [p] && !shown.changed && !shown.dirty;
    assert run[..4][..3] == run[..3];
    assert Exec(PowerOn(), run[..4]) == shown.(table := []);
    assert run[..|run|-1] == run[..4];
  }

  lemma WrapsDown(t: nat, u: nat)
    requires u <= t
    ensures Wrapped(t % CLOCK, u % CLOCK) == (t - u) % CLOCK <= t - u
  {
    var a, b := t / CLOCK, u / CLOCK;
    assert t == a * CLOCK + t % CLOCK && u == b * CLOCK + u % CLOCK;
    ModShift(t % CLOCK - u % CLOCK, a - b);
  }

  lemma {:induction false} ModShift(x: int, k: int)
    ensures (x + k * CLOCK) % CLOCK == x % CLOCK
    decreases if k < 0 then -k else k
  {
    if k > 0 {
      ModShift(x + CLOCK, k - 1);
    } else if k < 0 {
      ModShift(x - CLOCK, k + 1);
    }
  }

  /** One frame, in full: when it looks, what it latches and when it rebuilds. */
  lemma FrameDecides(s: State, t: nat)
    ensures var u := Frame(s, t);
      var looks := s.enabled || s.dirty;
      var rebuilds := looks && (s.dirty || s.changed) && (t % 0x1_0000_0000 - s.lastMs) % 0x1_0000_0000 >= 2000;
      && u.rebuilds == s.rebuilds + (if rebuilds then 1 else 0)
      && u.published == (if rebuilds then PeersOf(s.table) else s.published)
      && u.lastMs == (if rebuilds then t % 0x1_0000_0000 else s.lastMs)
      && u.dirty == (!rebuilds && (s.dirty || (s.enabled && s.changed)))
      && u.changed == (s.changed && !looks)
      && u.table == s.table && u.enabled == s.enabled && u.time == t
  {
  }

  /** Two rebuilds are at least two seconds apart, on the wrapping clock and so in real time. */
  lemma RebuildsApart(s: State, t: nat)
    requires Clocked(s) && s.time <= t && Frame(s, t).rebuilds > s.rebuilds
    ensures RebuildsAt(s, t) && t - s.lastTime >= REBUILD_MS
    ensures Frame(s, t).published == PeersOf(s.table)
  {
    WrapsDown(t, s.lastTime);
  }

  /** While nothing is rebuilt a latched change stays latched, and the wrapped clock runs as if
    * it did not wrap. */
  lemma {:induction false} StillWaiting(s: State, run: seq<Event>)
    requires Clocked(s) && s.dirty && Wrapped(s.time % CLOCK, s.lastMs) < REBUILD_MS
    requires Forward(s, run) && Steady(s, run) && Exec(s, run).rebuilds == s.rebuilds
    ensures var u := Exec(s, run);
      && u.dirty && u.lastMs == s.lastMs && u.time >= s.time
      && Wrapped(u.time % CLOCK, s.lastMs) == Wrapped(s.time % CLOCK, s.lastMs) + (u.time - s.time) < REBUILD_MS
  {
    if run != [] {
      var front, e := run[..|run|-1], run[|run|-1];
      RunKeepsClock(s, front);
      var p := Exec(s, front);
      assert Exec(s, run) == Next(p, e);
      assert p.rebuilds == s.rebuilds;
      StillWaiting(s, front);
      if e.Tick? {
        WrapsDown(e.t, p.lastTime);
        WrapsDown(p.time, p.lastTime);
        NoWrap(p.time - p.lastTime, e.t - p.time);
      }
    }
  }

  lemma NoWrap(x: nat, d: nat)
    requires x % CLOCK < REBUILD_MS && d < CLOCK - REBUILD_MS
    ensures (x + d) % CLOCK == x % CLOCK + d
  {
    var q := x / CLOCK;
    assert x + d == q * CLOCK + (x % CLOCK + d);
    ModShift(x % CLOCK + d, q);
  }

  /** Bounded delay.  A change latched at a frame that did not rebuild is published by the first
    * frame at least two seconds later, at the latest: a run that reaches such a frame has
    * rebuilt. */
  lemma LatchedChangeIsPublished(s: State, run: seq<Event>)
    requires Clocked(s) && s.dirty && Wrapped(s.time % CLOCK, s.lastMs) < REBUILD_MS
    requires Forward(s, run) && Steady(s, run) && Exec(s, run).time >= s.time + REBUILD_MS
    ensures Exec(s, run).rebuilds > s.rebuilds
  {
    RunKeepsClock(s, run);
    if Exec(s, run).rebuilds == s.rebuilds {
      StillWaiting(s, run);
    }
  }

  /** A frame that latches a change and leaves it waiting is one the rule above applies to. */
  lemma WaitingAfterFrame(s: State, t: nat)
    requires Clocked(s) && s.time <= t && Frame(s, t).dirty
    ensures var u := Frame(s, t);
      Clocked(u) && u.time == t && Wrapped(u.time % CLOCK, u.lastMs) < REBUILD_MS && u.rebuilds == s.rebuilds
  {
  }

  /** The statics of the latch. */
  class Latch {
    var changed: bool
    var dirty: bool
    var lastMs: int

    constructor ()
      ensures !changed && !dirty && lastMs == 0
    {
      changed, dirty, lastMs := false, false, 0;
    }

    /** JLinkDiscConsumeChanged: reads and clears. */
    method ConsumeChanged() returns (c: bool)
      modifies this`changed
      ensures c == old(changed) && !changed
    {
      c, changed := changed, false;
    }

    /** The block in retro_run; `rebuild` is the call of netlink_rebuild_host_options. */
    method RunFrame(now: int, enabled: bool, ghost s: State, ghost t: nat) returns (rebuild: bool)
      requires now == t % CLOCK
      requires s.changed == changed && s.dirty == dirty && s.lastMs == lastMs && s.enabled == enabled
      modifies this
      ensures rebuild == RebuildsAt(s, t)
      ensures var u := Frame(s, t);
        changed == u.changed && dirty == u.dirty && lastMs == u.lastMs && rebuild == (u.rebuilds > s.rebuilds)
    {
      rebuild := false;
      if enabled || dirty {
        var c := ConsumeChanged();
        if c {
          dirty := true;
        }
        if dirty && (now - lastMs) % CLOCK >= REBUILD_MS {
          rebuild, lastMs, dirty := true, now, false;
        }
      }
    }
  }
}
