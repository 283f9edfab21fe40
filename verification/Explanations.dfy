/** Option explanations (libretro.c, issue #841): what each read did with a preset is recorded
  * per key, and the record is turned into the sorted list of amendments to publish. */
module Explanations {
  import opened Common
  import opened OptionTable

  const EXPLAIN_MAX_OBS := 8
  const EXPLAIN_MAX_AMEND := 8
  const EXPLAIN_NOTE_MAX := 384

  datatype Outcome = Nothing | Applied | Dropped

  datatype Observation = Observation(key: string, outcome: Outcome, value: string, cls: int, reason: string)

  datatype Amendment = Amendment(idx: nat, note: string)

  // ---------------------------------------------------------------- the observation table

  function FindKey(table: seq<Observation>, key: string): (i: nat)
    ensures i <= |table|
    ensures i < |table| ==> table[i].key == key
    ensures forall j :: 0 <= j < i ==> table[j].key != key
  {
    if table == [] then 0 else if table[0].key == key then 0 else 1 + FindKey(table[1..], key)
  }

  lemma FindKeyIs(table: seq<Observation>, key: string, i: nat)
    requires i <= |table| && (forall j :: 0 <= j < i ==> table[j].key != key)
    requires i < |table| ==> table[i].key == key
    ensures FindKey(table, key) == i
  {
  }

  /** What the table keeps of an observation: its buffers are 32 and 64 characters. */
  function Stored(o: Observation): (r: Observation)
    ensures r.key == o.key && r.outcome == o.outcome && r.cls == o.cls
    ensures r.value <= o.value && r.reason <= o.reason
    ensures |r.value| == (if |o.value| < 32 then |o.value| else 31)
    ensures |r.reason| == (if |o.reason| < 64 then |o.reason| else 63)
  {
    o.(value := Clip(o.value, 32), reason := Clip(o.reason, 64))
  }

  function Observe(table: seq<Observation>, o: Observation): seq<Observation> {
    var i := FindKey(table, o.key);
    if i < |table| then table[i := Stored(o)]
    else if o.outcome.Nothing? || |table| >= EXPLAIN_MAX_OBS then table
    else table + [Stored(o)]
  }

  /** The table after a history of reads, oldest first. */
  function TableOf(history: seq<Observation>): seq<Observation> {
    if history == [] then [] else Observe(TableOf(history[..|history|-1]), history[|history|-1])
  }

  function LastOf(history: seq<Observation>, key: string): Option<Observation> {
    if history == [] then None
    else if history[|history|-1].key == key then Some(history[|history|-1])
    else LastOf(history[..|history|-1], key)
  }

  /** The keys a history ever reported something about. */
  function EverActive(history: seq<Observation>): set<string> {
    set o <- history | !o.outcome.Nothing? :: o.key
  }

  function KeysOf(table: seq<Observation>): set<string> {
    set o <- table :: o.key
  }

  ghost predicate DistinctKeys(table: seq<Observation>) {
    forall i, j :: 0 <= i < j < |table| ==> table[i].key != table[j].key
  }

  lemma {:induction false} KeyCount(table: seq<Observation>)
    requires DistinctKeys(table)
    ensures |KeysOf(table)| == |table|
  {
    if table != [] {
      var rest, last := table[..|table|-1], table[|table|-1];
      KeyCount(rest);
      assert KeysOf(table) == KeysOf(rest) + {last.key};
      assert last.key !in KeysOf(rest);
    }
  }

  /** While at most eight keys are ever active, the table is the last observation of each of
    * them: nothing is dropped, and a key that went quiet is updated, not forgotten. */
  ghost predicate Mirrors(table: seq<Observation>, history: seq<Observation>) {
    && DistinctKeys(table)
    && KeysOf(table) == EverActive(history)
    && Latest(table, history)
  }

  lemma HistoryPlus(past: seq<Observation>, o: Observation)
    ensures TableOf(past + [o]) == Observe(TableOf(past), o)
    ensures forall k :: LastOf(past + [o], k) == if o.key == k then Some(o) else LastOf(past, k)
    ensures EverActive(past + [o]) == EverActive(past) + if o.outcome.Nothing? then {} else {o.key}
  {
    assert (past + [o])[..|past|] == past;
  }

  lemma KeysKept(table: seq<Observation>, i: nat, o: Observation)
    requires i < |table| && table[i].key == o.key
    ensures KeysOf(table[i := o]) == KeysOf(table)
  {
    forall k | k in KeysOf(table) ensures k in KeysOf(table[i := o]) {
      var j :| 0 <= j < |table| && table[j].key == k;
      assert table[i := o][j].key == k;
    }
  }

  lemma KeysGrow(table: seq<Observation>, o: Observation)
    ensures KeysOf(table + [o]) == KeysOf(table) + {o.key}
  {
    forall k | k in KeysOf(table) ensures k in KeysOf(table + [o]) {
      var j :| 0 <= j < |table| && table[j].key == k;
      assert (table + [o])[j].key == k;
    }
    assert (table + [o])[|table|].key == o.key;
  }

  /** Entry by entry: the table holds what was last seen of each of its keys. */
  ghost predicate Latest(table: seq<Observation>, history: seq<Observation>) {
    forall i :: 0 <= i < |table| ==>
      LastOf(history, table[i].key).Some? && table[i] == Stored(LastOf(history, table[i].key).value)
  }

  lemma ObserveLatest(table: seq<Observation>, past: seq<Observation>, o: Observation)
    requires DistinctKeys(table) && Latest(table, past)
    ensures DistinctKeys(Observe(table, o)) && Latest(Observe(table, o), past + [o])
  {
    HistoryPlus(past, o);
    var i, next := FindKey(table, o.key), Observe(table, o);
    forall j | 0 <= j < |next|
      ensures LastOf(past + [o], next[j].key).Some? && next[j] == Stored(LastOf(past + [o], next[j].key).value)
    {
      if j < |table| && j != i {
        assert next[j] == table[j] && table[j].key != o.key;
      }
    }
  }

  lemma ObserveKeys(table: seq<Observation>, past: seq<Observation>, o: Observation)
    requires DistinctKeys(table) && KeysOf(table) == EverActive(past)
    requires |EverActive(past + [o])| <= EXPLAIN_MAX_OBS
    ensures KeysOf(Observe(table, o)) == EverActive(past + [o])
  {
    HistoryPlus(past, o);
    KeyCount(table);
    var i := FindKey(table, o.key);
    if i < |table| {
      assert table[i].key in KeysOf(table);
      KeysKept(table, i, Stored(o));
    } else if !o.outcome.Nothing? {
      assert o.key !in KeysOf(table);
      assert |EverActive(past) + {o.key}| == |EverActive(past)| + 1;
      KeysGrow(table, Stored(o));
    }
  }

  lemma {:induction false} TableMirrors(history: seq<Observation>)
    requires |EverActive(history)| <= 8
    ensures Mirrors(TableOf(history), history)
  {
    if history != [] {
      var past, o := history[..|history|-1], history[|history|-1];
      assert history == past + [o];
      HistoryPlus(past, o);
      SubsetSize(EverActive(past), EverActive(history));
      TableMirrors(past);
      ObserveLatest(TableOf(past), past, o);
      ObserveKeys(TableOf(past), past, o);
    }
  }

  /** However many are, the table never holds more than eight keys, each once, and what it holds is
    * what was last seen. */
  lemma {:induction false} TableIsBounded(history: seq<Observation>)
    ensures |TableOf(history)| <= 8 && DistinctKeys(TableOf(history)) && Latest(TableOf(history), history)
  {
    if history != [] {
      var past, o := history[..|history|-1], history[|history|-1];
      assert history == past + [o];
      HistoryPlus(past, o);
      TableIsBounded(past);
      ObserveLatest(TableOf(past), past, o);
    }
  }

  // ---------------------------------------------------------------- the amendment list

  ghost predicate Sorted(list: seq<Amendment>) {
    forall i, j :: 0 <= i < j < |list| ==> list[i].idx < list[j].idx
  }

  /** Number of entries before the place of idx. */
  function PlaceOf(list: seq<Amendment>, idx: nat): (p: nat)
    ensures p <= |list|
    ensures forall i :: 0 <= i < p ==> list[i].idx < idx
    ensures p < |list| ==> list[p].idx >= idx
  {
    if list == [] || list[0].idx >= idx then 0 else 1 + PlaceOf(list[1..], idx)
  }

  function Joined(first: string, note: string): (r: string)
    ensures first <= r && (|first| < EXPLAIN_NOTE_MAX ==> |r| < EXPLAIN_NOTE_MAX)
    ensures |first| + 2 >= 384 ==> r == first
    ensures |first| + 2 < 384 ==>
      r <= first + " " + note && |r| == if |first| + 1 + |note| < 384 then |first| + 1 + |note| else 383
  {
    if |first| + 2 < EXPLAIN_NOTE_MAX then first + Clip(" " + note, EXPLAIN_NOTE_MAX - |first|) else first
  }

  /** explain_add: insert in order, join a second note for the same option, refuse a ninth. */
  function Add(list: seq<Amendment>, idx: nat, note: string): seq<Amendment> {
    var p := PlaceOf(list, idx);
    if p < |list| && list[p].idx == idx then list[p := Amendment(idx, Joined(list[p].note, note))]
    else if |list| >= EXPLAIN_MAX_AMEND then list
    else list[..p] + [Amendment(idx, Clip(note, EXPLAIN_NOTE_MAX))] + list[p..]
  }

  lemma AddKeepsSorted(list: seq<Amendment>, idx: nat, note: string)
    requires Sorted(list) && |list| <= EXPLAIN_MAX_AMEND
    ensures Sorted(Add(list, idx, note)) && |Add(list, idx, note)| <= 8
  {
    var p := PlaceOf(list, idx);
    if p == |list| || list[p].idx != idx {
      InsertSorted(list, p, Amendment(idx, Clip(note, EXPLAIN_NOTE_MAX)));
    }
  }

  lemma InsertSorted(list: seq<Amendment>, p: nat, a: Amendment)
    requires Sorted(list) && p <= |list|
    requires forall i :: 0 <= i < p ==> list[i].idx < a.idx
    requires p < |list| ==> a.idx < list[p].idx
    ensures Sorted(list[..p] + [a] + list[p..])
  {
    forall i | p < i < |list| ensures a.idx < list[i].idx {
      assert list[p].idx < list[i].idx;
    }
  }

  lemma PlaceFound(list: seq<Amendment>, idx: nat, i: nat)
    requires Sorted(list) && i < |list| && list[i].idx == idx
    ensures PlaceOf(list, idx) == i
  {
  }

  /** The shift that opens a place in the fixed array. */
  method InsertAt(list: array<Amendment>, n: nat, i: nat, a: Amendment)
    requires i <= n < list.Length
    modifies list
    ensures forall k :: 0 <= k < i ==> list[k] == old(list[k])
    ensures list[i] == a && forall k :: i < k <= n ==> list[k] == old(list[k - 1])
  {
    ghost var before := list[..];
    var j := n;
    while j > i
      invariant i <= j <= n
      invariant forall k :: 0 <= k < j ==> list[k] == before[k]
      invariant forall k :: j < k <= n ==> list[k] == before[k - 1]
    {
      list[j] := list[j - 1];
      j := j - 1;
    }
    list[i] := a;
  }

  /** The search for an amendment of the option: its index, n when there is none. */
  method FindAmended(list: array<Amendment>, n: nat, idx: nat) returns (i: nat)
    requires n <= list.Length
    ensures i <= n && (i < n ==> list[i].idx == idx)
    ensures i == n ==> forall j :: 0 <= j < n ==> list[j].idx != idx
  {
    i := 0;
    while i < n && list[i].idx != idx
      invariant i <= n && forall j :: 0 <= j < i ==> list[j].idx != idx
    {
      i := i + 1;
    }
  }

  /** The search for the place of a new one. */
  method FindPlace(list: array<Amendment>, n: nat, idx: nat) returns (i: nat)
    requires n <= list.Length && Sorted(list[..n])
    ensures i == PlaceOf(list[..n], idx)
  {
    ghost var p := PlaceOf(list[..n], idx);
    i := 0;
    while i < n && list[i].idx < idx
      invariant i <= p
    {
      assert list[i] == list[..n][i];
      i := i + 1;
    }
    assert i < n ==> list[i] == list[..n][i];
  }

  lemma ShiftedOpen(before: seq<Amendment>, after: seq<Amendment>, p: nat, a: Amendment)
    requires p <= |before| && |after| == |before| + 1 && after[p] == a
    requires forall k :: 0 <= k < p ==> after[k] == before[k]
    requires forall k :: p < k < |after| ==> after[k] == before[k - 1]
    ensures after == before[..p] + [a] + before[p..]
  {
  }

  /** A first note for an option opens a place in order. */
  method InsertNote(list: array<Amendment>, n: nat, idx: nat, note: string)
    requires n < list.Length == EXPLAIN_MAX_AMEND && Sorted(list[..n])
    requires forall j :: 0 <= j < n ==> list[j].idx != idx
    modifies list
    ensures list[..n + 1] == Add(old(list[..n]), idx, note)
  {
    ghost var before := list[..n];
    var i := FindPlace(list, n, idx);
    assert i < n ==> before[i].idx != idx;
    var a := Amendment(idx, Clip(note, EXPLAIN_NOTE_MAX));
    InsertAt(list, n, i, a);
    ShiftedOpen(before, list[..n + 1], i, a);
  }

  /** explain_add on its fixed array: join, refuse, or open a place and insert. */
  method AddNote(list: array<Amendment>, n: nat, idx: nat, note: string) returns (n': nat)
    requires list.Length == EXPLAIN_MAX_AMEND && n <= list.Length && Sorted(list[..n])
    modifies list
    ensures n' <= list.Length && list[..n'] == Add(old(list[..n]), idx, note)
  {
    ghost var before := list[..n];
    var i := FindAmended(list, n, idx);
    if i < n {
      PlaceFound(before, idx, i);
      list[i] := Amendment(idx, Joined(list[i].note, note));
      assert list[..n] == before[i := Amendment(idx, Joined(before[i].note, note))];
      return n;
    }
    assert forall j :: 0 <= j < n ==> before[j].idx != idx;
    if n >= EXPLAIN_MAX_AMEND {
      return n;
    }
    InsertNote(list, n, idx, note);
    return n + 1;
  }

  // ---------------------------------------------------------------- the amendment set

  function NoteOf(d: Def, o: Observation): (r: string)
    ensures |r| < EXPLAIN_NOTE_MAX
  {
    var text := ValueText(d.values, o.value);
    Clip(if o.outcome.Applied? then
           "This game: set to " + text + " by its per-title preset. Choose a value to override."
         else
           "This game's per-title preset (" + text + ") is not applied: " + o.reason
             + ". Choose it yourself to use it anyway.", EXPLAIN_NOTE_MAX)
  }

  /** What the two notes say, as far as 383 characters go. */
  lemma NoteSays(d: Def, o: Observation)
    ensures var text, note := ValueText(d.values, o.value), NoteOf(d, o);
      var whole := if o.outcome == Applied then
          "This game: set to " + text + " by its per-title preset. Choose a value to override."
        else
          "This game's per-title preset (" + text + ") is not applied: " + o.reason
          + ". Choose it yourself to use it anyway.";
      note <= whole && |note| == if |whole| < 384 then |whole| else 383
  {
  }

  predicate Speaks(defs: seq<Def>, o: Observation) {
    !o.outcome.Nothing? && Find(defs, o.key) < |defs|
  }

  function AmendmentOf(defs: seq<Def>, o: Observation): Amendment
    requires Speaks(defs, o)
  {
    Amendment(Find(defs, o.key), NoteOf(defs[Find(defs, o.key)], o))
  }

  function FromTable(defs: seq<Def>, table: seq<Observation>): seq<Amendment> {
    if table == [] then []
    else
      var list, o := FromTable(defs, table[..|table|-1]), table[|table|-1];
      if Speaks(defs, o) then Add(list, AmendmentOf(defs, o).idx, AmendmentOf(defs, o).note) else list
  }

  /** The set implied by the current record: the presets' notes, then the idle-skip note. */
  function Compute(defs: seq<Def>, table: seq<Observation>, idle: Option<Amendment>): seq<Amendment> {
    var list := FromTable(defs, table);
    if idle.Some? then Add(list, idle.value.idx, idle.value.note) else list
  }

  ghost predicate ListedBy(defs: seq<Def>, table: seq<Observation>, a: Amendment) {
    exists i :: 0 <= i < |table| && Speaks(defs, table[i]) && AmendmentOf(defs, table[i]) == a
  }

  lemma ListedByPlus(defs: seq<Def>, rest: seq<Observation>, o: Observation, a: Amendment)
    ensures ListedBy(defs, rest + [o], a) <==>
      ListedBy(defs, rest, a) || (Speaks(defs, o) && AmendmentOf(defs, o) == a)
  {
    var table := rest + [o];
    if ListedBy(defs, rest, a) {
      var i :| 0 <= i < |rest| && Speaks(defs, rest[i]) && AmendmentOf(defs, rest[i]) == a;
      assert table[i] == rest[i];
    }
    if Speaks(defs, o) && AmendmentOf(defs, o) == a {
      assert table[|rest|] == o;
    }
  }

  /** The list holds one amendment for each record that has something to say, and no other. */
  ghost predicate Lists(defs: seq<Def>, table: seq<Observation>, list: seq<Amendment>) {
    Sorted(list) && |list| <= |table| && forall a :: a in list <==> ListedBy(defs, table, a)
  }

  lemma AddFresh(list: seq<Amendment>, a: Amendment)
    requires Sorted(list) && |list| < EXPLAIN_MAX_AMEND && |a.note| < EXPLAIN_NOTE_MAX
    requires forall b :: b in list ==> b.idx != a.idx
    ensures Sorted(Add(list, a.idx, a.note)) && |Add(list, a.idx, a.note)| == |list| + 1
    ensures forall b :: b in Add(list, a.idx, a.note) <==> b in list || b == a
  {
    AddKeepsSorted(list, a.idx, a.note);
    var p := PlaceOf(list, a.idx);
    assert p < |list| ==> list[p] in list;
    assert list == list[..p] + list[p..];
    assert Add(list, a.idx, a.note) == list[..p] + [a] + list[p..];
  }

  lemma {:induction false} TableLists(defs: seq<Def>, table: seq<Observation>)
    requires DistinctKeys(table) && |table| <= EXPLAIN_MAX_OBS
    ensures Lists(defs, table, FromTable(defs, table))
  {
    if table != [] {
      var rest, o := table[..|table|-1], table[|table|-1];
      assert table == rest + [o];
      TableLists(defs, rest);
      var list := FromTable(defs, rest);
      forall a ensures ListedBy(defs, table, a) <==>
        ListedBy(defs, rest, a) || (Speaks(defs, o) && AmendmentOf(defs, o) == a) {
        ListedByPlus(defs, rest, o, a);
      }
      if Speaks(defs, o) {
        forall b | b in list ensures b.idx != AmendmentOf(defs, o).idx {
          var i :| 0 <= i < |rest| && Speaks(defs, rest[i]) && AmendmentOf(defs, rest[i]) == b;
          assert table[i].key == rest[i].key == defs[b.idx].key;
        }
        AddFresh(list, AmendmentOf(defs, o));
      }
    }
  }

  lemma FrontOf(a: seq<Amendment>, z: Amendment)
    requires Sorted(a) && a != []
    ensures z in a ==> z == a[|a|-1] || z.idx < a[|a|-1].idx
    ensures z in a[..|a|-1] <==> z in a && z.idx < a[|a|-1].idx
  {
  }

  /** A sorted list is determined by its elements. */
  lemma {:induction false} SortedUnique(a: seq<Amendment>, b: seq<Amendment>)
    requires Sorted(a) && Sorted(b) && forall x :: x in a <==> x in b
    ensures a == b
    decreases |a|
  {
    if a == [] {
      assert forall i :: 0 <= i < |b| ==> b[i] in b;
    } else {
      var x := a[|a|-1];
      assert x in a && x in b;
      var y := b[|b|-1];
      assert y in b && y in a;
      FrontOf(a, y);
      FrontOf(b, x);
      var c, d := a[..|a|-1], b[..|b|-1];
      forall z ensures z in c <==> z in d {
        FrontOf(a, z);
        FrontOf(b, z);
      }
      SortedUnique(c, d);
      assert a == c + [x] && b == d + [y];
    }
  }

  /** The amendment list is strictly sorted, so free of duplicates, and within its buffer,
    * whatever was observed and in whatever order. */
  lemma {:induction false} AmendmentsSorted(defs: seq<Def>, table: seq<Observation>, idle: Option<Amendment>)
    ensures Sorted(FromTable(defs, table)) && |FromTable(defs, table)| <= 8
    ensures Sorted(Compute(defs, table, idle)) && |Compute(defs, table, idle)| <= 8
    decreases |table|
  {
    if table != [] {
      AmendmentsSorted(defs, table[..|table|-1], None);
      var o := table[|table|-1];
      if Speaks(defs, o) {
        AddKeepsSorted(FromTable(defs, table[..|table|-1]), AmendmentOf(defs, o).idx, AmendmentOf(defs, o).note);
      }
    }
    if idle.Some? {
      AddKeepsSorted(FromTable(defs, table), idle.value.idx, idle.value.note);
    }
  }

  lemma SameSpeech(defs: seq<Def>, h1: seq<Observation>, h2: seq<Observation>, a: Amendment)
    requires |EverActive(h1)| <= EXPLAIN_MAX_OBS && |EverActive(h2)| <= EXPLAIN_MAX_OBS
    requires forall k :: LastOf(h1, k) == LastOf(h2, k)
    requires Mirrors(TableOf(h1), h1) && Mirrors(TableOf(h2), h2)
    requires Lists(defs, TableOf(h1), FromTable(defs, TableOf(h1)))
    requires Lists(defs, TableOf(h2), FromTable(defs, TableOf(h2)))
    requires a in FromTable(defs, TableOf(h1))
    ensures a in FromTable(defs, TableOf(h2))
  {
    var t1, t2 := TableOf(h1), TableOf(h2);
    var i :| 0 <= i < |t1| && Speaks(defs, t1[i]) && AmendmentOf(defs, t1[i]) == a;
    var k := t1[i].key;
    assert k in KeysOf(t1);
    LastIsObserved(h2, k);
    assert k in EverActive(h2);
    var j :| 0 <= j < |t2| && t2[j].key == k;
    assert t2[j] == t1[i];
    assert ListedBy(defs, t2, a);
  }

  lemma {:induction false} LastIsObserved(h: seq<Observation>, k: string)
    requires LastOf(h, k).Some?
    ensures LastOf(h, k).value in h && LastOf(h, k).value.key == k
  {
    if h[|h|-1].key != k {
      LastIsObserved(h[..|h|-1], k);
    }
  }

  /** Order of observation does not matter: two histories with the same last observation of
    * every key, in each of which at most eight keys ever had something to report, imply the
    * same amendments. */
  lemma AmendmentsForgetOrder(defs: seq<Def>, h1: seq<Observation>, h2: seq<Observation>, idle: Option<Amendment>)
    requires |EverActive(h1)| <= EXPLAIN_MAX_OBS && |EverActive(h2)| <= EXPLAIN_MAX_OBS
    requires forall k :: LastOf(h1, k) == LastOf(h2, k)
    ensures Compute(defs, TableOf(h1), idle) == Compute(defs, TableOf(h2), idle)
  {
    TableMirrors(h1); TableMirrors(h2);
    KeyCount(TableOf(h1)); KeyCount(TableOf(h2));
    TableLists(defs, TableOf(h1)); TableLists(defs, TableOf(h2));
    var a, b := FromTable(defs, TableOf(h1)), FromTable(defs, TableOf(h2));
    forall x ensures x in a <==> x in b {
      if x in a { SameSpeech(defs, h1, h2, x); }
      if x in b { SameSpeech(defs, h2, h1, x); }
    }
    SortedUnique(a, b);
  }

  lemma InUpdated(list: seq<Amendment>, p: nat, b: Amendment, a: Amendment)
    requires p < |list| && a != b && a != list[p]
    ensures a in list[p := b] <==> a in list
  {
    if a in list {
      var i :| 0 <= i < |list| && list[i] == a;
      assert list[p := b][i] == a;
    }
  }

  lemma AddOther(list: seq<Amendment>, idx: nat, note: string, a: Amendment)
    requires Sorted(list) && a.idx != idx
    ensures a in Add(list, idx, note) <==> a in list
  {
    var p := PlaceOf(list, idx);
    if p < |list| && list[p].idx == idx {
      InUpdated(list, p, Amendment(idx, Joined(list[p].note, note)), a);
    } else {
      assert list == list[..p] + list[p..];
    }
  }

  /** What the set says of one option: the note of its key's last observation if that one has
    * something to say, else nothing.  The idle-skip option is the exception, whose note is joined
    * to this one. */
  lemma NoteOfOption(defs: seq<Def>, h: seq<Observation>, idle: Option<Amendment>, k: nat)
    requires k < |defs| && Find(defs, defs[k].key) == k
    requires |EverActive(h)| <= EXPLAIN_MAX_OBS && (idle.Some? ==> idle.value.idx != k)
    ensures var o := LastOf(h, defs[k].key);
      forall a :: a in Compute(defs, TableOf(h), idle) && a.idx == k ==>
        o.Some? && !o.value.outcome.Nothing? && a.note == NoteOf(defs[k], Stored(o.value))
    ensures var o := LastOf(h, defs[k].key);
      o.Some? && !o.value.outcome.Nothing? ==>
        Amendment(k, NoteOf(defs[k], Stored(o.value))) in Compute(defs, TableOf(h), idle)
  {
    var table, o := TableOf(h), LastOf(h, defs[k].key);
    TableMirrors(h);
    KeyCount(table);
    TableLists(defs, table);
    var list := FromTable(defs, table);
    forall a | a in Compute(defs, table, idle) && a.idx == k
      ensures o.Some? && !o.value.outcome.Nothing? && a.note == NoteOf(defs[k], Stored(o.value))
    {
      if idle.Some? {
        AddOther(list, idle.value.idx, idle.value.note, a);
      }
      var i :| 0 <= i < |table| && Speaks(defs, table[i]) && AmendmentOf(defs, table[i]) == a;
      assert table[i].key == defs[k].key;
    }
    if o.Some? && !o.value.outcome.Nothing? {
      var a := Amendment(k, NoteOf(defs[k], Stored(o.value)));
      LastIsObserved(h, defs[k].key);
      assert defs[k].key in KeysOf(table);
      var j :| 0 <= j < |table| && table[j].key == defs[k].key;
      assert ListedBy(defs, table, a);
      if idle.Some? {
        AddOther(list, idle.value.idx, idle.value.note, a);
      }
    }
  }

  /** The idle-skip note: listed by itself, or behind the note its option already has; refused only
    * when eight other options have notes.  It leaves every other option's note alone. */
  lemma IdleIsListed(defs: seq<Def>, table: seq<Observation>, idle: Amendment)
    requires 0 < |idle.note| < 384
    ensures var without, list := Compute(defs, table, None), Compute(defs, table, Some(idle));
      && (forall a: Amendment :: a.idx != idle.idx ==> (a in list <==> a in without))
      && ((forall a :: a in without ==> a.idx != idle.idx) ==> (idle in list <==> |without| < 8))
      && (forall a :: a in without && a.idx == idle.idx && |a.note| + 1 + |idle.note| < 384 ==>
            Amendment(idle.idx, a.note + " " + idle.note) in list)
  {
    var without := Compute(defs, table, None);
    AmendmentsSorted(defs, table, None);
    forall a: Amendment | a.idx != idle.idx
      ensures a in Compute(defs, table, Some(idle)) <==> a in without
    {
      AddOther(without, idle.idx, idle.note, a);
    }
    if (forall a :: a in without ==> a.idx != idle.idx) && |without| < EXPLAIN_MAX_AMEND {
      AddFresh(without, idle);
    }
    forall a | a in without && a.idx == idle.idx && |a.note| + 1 + |idle.note| < 384
      ensures Amendment(idle.idx, a.note + " " + idle.note) in Compute(defs, table, Some(idle))
    {
      var i :| 0 <= i < |without| && without[i] == a;
      PlaceFound(without, idle.idx, i);
      var note := Joined(a.note, idle.note);
      assert note == (a.note + " " + idle.note)[..|note|] == a.note + " " + idle.note;
      assert Compute(defs, table, Some(idle))[i] == Amendment(idle.idx, note);
    }
  }

  // ---------------------------------------------------------------- the recorder

  class Recorder {
    var obs: array<Observation>
    var count: nat

    ghost predicate Valid()
      reads this, obs
    {
      obs.Length == EXPLAIN_MAX_OBS && count <= obs.Length
    }

    ghost function Table(): seq<Observation>
      reads this, obs
      requires Valid()
    {
      obs[..count]
    }

    constructor ()
      ensures Valid() && fresh(obs) && Table() == []
    {
      obs := new Observation[EXPLAIN_MAX_OBS](_ => Observation("", Nothing, "", 0, ""));
      count := 0;
    }

    /** explain_observe. */
    method Record(o: Observation)
      requires Valid()
      modifies this`count, obs
      ensures Valid() && Table() == Observe(old(Table()), o)
    {
      ghost var before := Table();
      var i := 0;
      while i < count && obs[i].key != o.key
        invariant 0 <= i <= count && forall j :: 0 <= j < i ==> before[j].key != o.key
      {
        assert before[i] == obs[i];
        i := i + 1;
      }
      assert i < count ==> before[i] == obs[i];
      FindKeyIs(before, o.key, i);
      if i == count {
        if o.outcome.Nothing? || count >= EXPLAIN_MAX_OBS {
          return;
        }
        count := count + 1;
      }
      obs[i] := Stored(o);
      assert Table() == if i < |before| then before[i := Stored(o)] else before + [Stored(o)];
    }

    /** explain_compute: the whole table into the amendment buffer, then the idle-skip note. */
    method ComputeAmendments(defs: seq<Def>, idle: Option<Amendment>, out: array<Amendment>) returns (n: nat)
      requires Valid() && out.Length == EXPLAIN_MAX_AMEND
      modifies out
      ensures n <= out.Length && out[..n] == Compute(defs, Table(), idle)
    {
      n := 0;
      for i := 0 to count
        invariant n <= out.Length && out[..n] == FromTable(defs, Table()[..i])
      {
        AmendmentsSorted(defs, Table()[..i], None);
        assert Table()[..i + 1][..i] == Table()[..i];
        var o := obs[i];
        if !o.outcome.Nothing? {
          var idx := Find(defs, o.key);
          if idx < |defs| {
            n := AddNote(out, n, idx, NoteOf(defs[idx], o));
          }
        }
      }
      assert Table()[..count] == Table();
      AmendmentsSorted(defs, Table(), None);
      if idle.Some? {
        n := AddNote(out, n, idle.value.idx, idle.value.note);
      }
    }
  }
}
