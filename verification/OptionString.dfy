/** The option string for frontends without structured options (the version 0 branch of
  * libretro_set_core_options, libretro_core_options.h): "description; default|value|value". */
module OptionString {
  import opened Common
  import opened OptionTable

  // ---------------------------------------------------------------- what is asked for

  /** Index of the last value equal to the default; the first value when none is, or when the
    * option names no default. */
  function DefaultIndex(values: seq<string>, default: Option<string>, n: nat): (d: nat)
    requires n <= |values|
    ensures d < n || d == 0
  {
    if n == 0 then 0 else if default == Some(values[n-1]) then n - 1 else DefaultIndex(values, default, n - 1)
  }

  /** Default first, the rest in order. */
  function Arranged(values: seq<string>, d: nat): (r: seq<string>)
    requires d < |values|
    ensures |r| == |values|
  {
    [values[d]] + values[..d] + values[d + 1..]
  }

  function Join(values: seq<string>): string {
    if values == [] then ""
    else if |values| == 1 then values[0]
    else Join(values[..|values|-1]) + "|" + values[|values|-1]
  }

  function TotalLength(values: seq<string>): nat {
    if values == [] then 0 else TotalLength(values[..|values|-1]) + |values[|values|-1]|
  }

  /** The value string of one option. */
  function Rendered(desc: string, values: seq<string>, default: Option<string>): string
    requires values != []
  {
    desc + "; " + Join(Arranged(values, DefaultIndex(values, default, |values|)))
  }

  // ---------------------------------------------------------------- its length

  lemma {:induction false} JoinLength(values: seq<string>)
    requires values != []
    ensures |Join(values)| == TotalLength(values) + |values| - 1
  {
    if |values| > 1 {
      JoinLength(values[..|values|-1]);
    } else {
      assert values[..0] == [];
    }
  }

  lemma {:induction false} TotalLengthConcat(a: seq<string>, b: seq<string>)
    ensures TotalLength(a + b) == TotalLength(a) + TotalLength(b)
    decreases |b|
  {
    if b == [] {
      assert a + b == a;
    } else {
      TotalLengthConcat(a, b[..|b|-1]);
      assert (a + b)[..|a + b|-1] == a + b[..|b|-1];
    }
  }

  lemma MoveFirst(x: seq<string>, y: seq<string>, a: seq<string>, v: string, b: seq<string>)
    requires x == a + [v] + b && y == [v] + a + b
    ensures TotalLength(y) == TotalLength(x) && multiset(y) == multiset(x)
  {
    TotalLengthConcat(a + [v], b);
    TotalLengthConcat(a, [v]);
    TotalLengthConcat([v] + a, b);
    TotalLengthConcat([v], a);
  }

  lemma Pieces(values: seq<string>, d: nat)
    requires d < |values|
    ensures values == values[..d] + [values[d]] + values[d + 1..]
  {
  }

  lemma ArrangedSame(values: seq<string>, d: nat)
    requires d < |values|
    ensures TotalLength(Arranged(values, d)) == TotalLength(values)
    ensures multiset(Arranged(values, d)) == multiset(values)
  {
    Pieces(values, d);
    var r := Arranged(values, d);
    MoveFirst(values, r, values[..d], values[d], values[d + 1..]);
  }

  /** The computed size is exact: the rendered string and its terminator fill the buffer. */
  lemma RenderedLength(desc: string, values: seq<string>, default: Option<string>)
    requires values != []
    ensures |Rendered(desc, values, default)| + 1 == 3 + TotalLength(values) + (|values| - 1) + |desc|
  {
    var d := DefaultIndex(values, default, |values|);
    JoinLength(Arranged(values, d));
    ArrangedSame(values, d);
  }

  // ---------------------------------------------------------------- its contents

  /** The values are permuted, not lost or repeated; the default, when it is offered, is first. */
  lemma ArrangedIsPermutation(values: seq<string>, default: Option<string>)
    requires values != []
    ensures var r := Arranged(values, DefaultIndex(values, default, |values|));
      && multiset(r) == multiset(values)
      && (Offered(values, default) ==> Some(r[0]) == default)
      && (!Offered(values, default) ==> r == values)
  {
    LastDefault(values, default, |values|);
    assert values[..|values|] == values;
    ArrangedSame(values, DefaultIndex(values, default, |values|));
    FirstStays(values);
  }

  predicate Offered(values: seq<string>, default: Option<string>) {
    default.Some? && default.value in values
  }

  lemma FirstStays(values: seq<string>)
    requires values != []
    ensures Arranged(values, 0) == values
  {
  }

  /** The values other than the default keep their order. */
  lemma ArrangedKeepsOrder(values: seq<string>, d: nat, i: nat, j: nat)
    requires d < |values| && i < j < |values| && i != d && j != d
    ensures 0 < PlaceIn(i, d) < PlaceIn(j, d) < |values|
    ensures Arranged(values, d)[PlaceIn(i, d)] == values[i] && Arranged(values, d)[PlaceIn(j, d)] == values[j]
  {
  }

  /** Where a value other than the default ends up. */
  function PlaceIn(i: nat, d: nat): nat { if i < d then i + 1 else i }

  /** When the default is offered more than once, its last place is the one that moves. */
  lemma {:induction false} LastDefault(values: seq<string>, default: Option<string>, n: nat)
    requires n <= |values|
    ensures Offered(values[..n], default) ==>
      DefaultIndex(values, default, n) < n && default == Some(values[DefaultIndex(values, default, n)])
    ensures !Offered(values[..n], default) ==> DefaultIndex(values, default, n) == 0
    ensures forall j :: DefaultIndex(values, default, n) < j < n ==> default != Some(values[j])
  {
    if n > 0 {
      LastDefault(values, default, n - 1);
      assert values[..n] == values[..n-1] + [values[n-1]];
    }
  }

  /** Splitting at every bar. */
  function Split(s: string): (r: seq<string>)
    ensures r != []
  {
    if s == "" then [""]
    else
      var r := Split(s[..|s|-1]);
      if s[|s|-1] == '|' then r + [""] else r[..|r|-1] + [r[|r|-1] + [s[|s|-1]]]
  }

  predicate NoBars(values: seq<string>) {
    forall v :: v in values ==> '|' !in v
  }

  lemma SplitChar(s: string, c: char)
    requires c != '|'
    ensures var r := Split(s); Split(s + [c]) == r[..|r|-1] + [r[|r|-1] + [c]]
  {
    var t := s + [c];
    assert t[..|t|-1] == s && t[|t|-1] == c;
  }

  lemma {:induction false} SplitPiece(s: string, v: string, front: seq<string>, last: string)
    requires '|' !in v && Split(s) == front + [last]
    ensures Split(s + v) == front + [last + v]
    decreases |v|
  {
    if v == "" {
      assert s + v == s && last + v == last;
    } else {
      var init, c := v[..|v|-1], v[|v|-1];
      SplitPiece(s, init, front, last);
      SplitChar(s + init, c);
      assert s + v == s + init + [c];
      assert last + v == last + init + [c];
      assert (front + [last + init])[..|front|] == front;
    }
  }

  lemma SplitBar(s: string, v: string)
    requires '|' !in v
    ensures Split(s + "|" + v) == Split(s) + [v]
  {
    var t := s + "|";
    assert t[..|t|-1] == s;
    SplitPiece(t, v, Split(s), "");
    assert "" + v == v;
  }

  lemma {:induction false} SplitJoin(values: seq<string>)
    requires values != [] && NoBars(values)
    ensures Split(Join(values)) == values
  {
    var front, last := values[..|values|-1], values[|values|-1];
    assert last in values;
    if |values| == 1 {
      assert Split("") == [] + [""];
      SplitPiece("", last, [], "");
      assert "" + last == last;
      assert values == [last];
    } else {
      SplitJoin(front);
      SplitBar(Join(front), last);
      assert values == front + [last];
    }
  }

  lemma {:induction false} PiecesHaveNoBars(s: string)
    ensures NoBars(Split(s))
  {
    if s != "" {
      PiecesHaveNoBars(s[..|s|-1]);
      var r := Split(s[..|s|-1]);
      assert r[|r|-1] in r;
    }
  }

  /** Reading it back: dropping the description and the separator and splitting at the bars
    * recovers the values, default first, if and only if no value contains a bar. */
  lemma ReadBack(desc: string, values: seq<string>, default: Option<string>)
    requires values != []
    ensures var s := Rendered(desc, values, default);
      |desc| + 2 <= |s| && s[..|desc| + 2] == desc + "; "
      && (Split(s[|desc| + 2..]) == Arranged(values, DefaultIndex(values, default, |values|)) <==> NoBars(values))
  {
    var d := DefaultIndex(values, default, |values|);
    var r := Arranged(values, d);
    assert Rendered(desc, values, default)[|desc| + 2..] == Join(r);
    ArrangedSame(values, d);
    assert forall v :: v in values <==> v in multiset(r);
    assert NoBars(r) <==> NoBars(values);
    PiecesHaveNoBars(Join(r));
    if NoBars(r) {
      SplitJoin(r);
    }
  }

  /** With bars, two different value lists can give the same string, which no reader could tell apart. */
  lemma BarsAreAmbiguous()
    ensures Rendered("d", ["a|b"], Some("a|b")) == Rendered("d", ["a", "b"], Some("a"))
  {
    assert Arranged(["a|b"], 0) == ["a|b"] && Arranged(["a", "b"], 0) == ["a", "b"];
    assert ["a", "b"][..1] == ["a"];
    assert Join(["a", "b"]) == "a" + "|" + "b";
  }

  // ---------------------------------------------------------------- the builder

  /** A C string in a buffer: the characters up to the first NUL. */
  ghost predicate Holds(buf: array<char>, s: string)
    reads buf
  {
    && |s| < buf.Length
    && buf[..|s|] == s
    && (forall i :: 0 <= i < |s| ==> buf[i] != '\0')
    && (forall i :: |s| <= i < buf.Length ==> buf[i] == '\0')
  }

  predicate CString(s: string) { '\0' !in s }

  predicate CStrings(values: seq<string>) { forall i :: 0 <= i < |values| ==> CString(values[i]) }

  /** strcat, and strcpy into an empty buffer: finds the end, then copies. */
  method Append(buf: array<char>, t: string, ghost s: string)
    requires Holds(buf, s) && CString(t) && |s| + |t| < buf.Length
    modifies buf
    ensures Holds(buf, s + t)
  {
    var end := 0;
    while buf[end] != '\0'
      invariant 0 <= end <= |s|
      decreases |s| - end
    {
      end := end + 1;
    }
    for i := 0 to |t|
      invariant buf[..|s|] == s
      invariant buf[|s|..|s| + i] == t[..i]
      invariant forall j :: |s| + i <= j < buf.Length ==> buf[j] == '\0'
    {
      assert t[i] in t;
      buf[end + i] := t[i];
      assert buf[|s|..|s| + i + 1] == buf[|s|..|s| + i] + [t[i]];
    }
    assert buf[..|s + t|] == buf[..|s|] + buf[|s|..|s| + |t|];
    assert forall i :: 0 <= i < |s + t| ==> buf[i] == (s + t)[i];
    assert forall i :: 0 <= i < |t| ==> t[i] in t;
    assert forall i :: 0 <= i < |s| ==> s[i] == buf[i];
  }

  /** The sizing pass: buffer length and index of the default. */
  method Measure(desc: string, values: seq<string>, default: Option<string>) returns (bufLen: nat, defaultIndex: nat)
    requires values != []
    ensures defaultIndex == DefaultIndex(values, default, |values|)
    ensures bufLen == |Rendered(desc, values, default)| + 1
  {
    bufLen, defaultIndex := 3, 0;
    var n := 0;
    while n < |values|
      invariant 0 <= n <= |values|
      invariant bufLen == 3 + TotalLength(values[..n])
      invariant defaultIndex == DefaultIndex(values, default, n)
    {
      if default == Some(values[n]) {
        defaultIndex := n;
      }
      assert values[..n + 1][..n] == values[..n];
      bufLen := bufLen + |values[n]|;
      n := n + 1;
    }
    assert values[..n] == values;
    bufLen := bufLen + (n - 1) + |desc|;
    RenderedLength(desc, values, default);
  }

  method PrintNext(buf: array<char>, values: seq<string>, d: nat, j: nat, ghost text: string)
    requires d < |values| && j < |values| && j != d && CString(values[j])
    requires Holds(buf, text + Join(Taken(values, d, j))) && |text| + |Join(Arranged(values, d))| < buf.Length
    modifies buf
    ensures Holds(buf, text + Join(Taken(values, d, j + 1)))
  {
    ghost var t := Taken(values, d, j);
    RoomForNext(values, d, j);
    NextShown(text, t, values[j]);
    AppendValue(buf, values[j], text + Join(t));
  }

  method PrintRest(buf: array<char>, values: seq<string>, d: nat, ghost text: string)
    requires d < |values| && CStrings(values)
    requires Holds(buf, text + Join(Taken(values, d, 0))) && |text| + |Join(Arranged(values, d))| < buf.Length
    modifies buf
    ensures Holds(buf, text + Join(Taken(values, d, |values|)))
  {
    for j := 0 to |values|
      invariant Holds(buf, text + Join(Taken(values, d, j)))
    {
      if j != d {
        PrintNext(buf, values, d, j, text);
      } else {
        TakenEnds(values, d);
      }
    }
  }

  /** The start of the printing pass: description, separator and default. */
  method PrintHead(buf: array<char>, desc: string, first: string)
    requires CString(desc) && CString(first) && Holds(buf, "") && |desc| + 2 + |first| < buf.Length
    modifies buf
    ensures Holds(buf, desc + "; " + first)
  {
    Append(buf, desc, "");
    assert "" + desc == desc;
    Append(buf, "; ", desc);
    Append(buf, first, desc + "; ");
  }

  /** The printing pass: description, separator, default, then the others. */
  method Print(buf: array<char>, desc: string, values: seq<string>, d: nat)
    requires d < |values| && CString(desc) && CStrings(values)
    requires Holds(buf, "") && buf.Length == |desc| + 2 + |Join(Arranged(values, d))| + 1
    modifies buf
    ensures Holds(buf, desc + "; " + Join(Arranged(values, d)))
  {
    ghost var text := desc + "; ";
    RoomForFirst(values, d);
    TakenEnds(values, d);
    PrintHead(buf, desc, values[d]);
    PrintRest(buf, values, d, text);
  }

  method AppendValue(buf: array<char>, v: string, ghost s: string)
    requires Holds(buf, s) && CString(v) && |s| + 1 + |v| < buf.Length
    modifies buf
    ensures Holds(buf, s + "|" + v)
  {
    Append(buf, "|", s);
    Append(buf, v, s + "|");
  }

  lemma NextShown(text: string, t: seq<string>, v: string)
    requires t != []
    ensures text + Join(t + [v]) == text + Join(t) + "|" + v
  {
    assert (t + [v])[..|t|] == t;
  }

  /** One option of the version 0 branch.  The buffer has exactly the computed size, nothing is
    * written past it, and it holds the rendering. */
  method Build(desc: string, values: seq<string>, default: Option<string>) returns (buf: array<char>)
    requires values != [] && CString(desc) && CStrings(values)
    ensures fresh(buf) && buf.Length == |Rendered(desc, values, default)| + 1
    ensures Holds(buf, Rendered(desc, values, default))
  {
    var bufLen, d := Measure(desc, values, default);
    buf := new char[bufLen](_ => '\0');
    Print(buf, desc, values, d);
  }

  /** One definition: an option without a description or without values gets no string. */
  method BuildOption(desc: Option<string>, values: seq<string>, default: Option<string>) returns (buf: array?<char>)
    requires desc.Some? ==> CString(desc.value)
    requires CStrings(values)
    ensures buf == null <==> desc.None? || values == []
    ensures buf != null ==> fresh(buf) && buf.Length == |Rendered(desc.value, values, default)| + 1
    ensures buf != null ==> Holds(buf, Rendered(desc.value, values, default))
  {
    if desc.None? || values == [] {
      return null;
    }
    buf := Build(desc.value, values, default);
  }

  /** The values printed after the first j were considered. */
  ghost function Taken(values: seq<string>, d: nat, j: nat): (r: seq<string>)
    requires d < |values| && j <= |values|
    ensures r != []
  {
    if j <= d then [values[d]] + values[..j] else [values[d]] + values[..d] + values[d + 1..j]
  }

  lemma JoinGrows(t: seq<string>, rest: seq<string>)
    requires t != []
    ensures |Join(t)| <= |Join(t + rest)|
  {
    JoinLength(t);
    JoinLength(t + rest);
    TotalLengthConcat(t, rest);
  }

  lemma RoomForFirst(values: seq<string>, d: nat)
    requires d < |values|
    ensures |values[d]| <= |Join(Arranged(values, d))|
  {
    var t := [values[d]];
    assert Arranged(values, d) == t + (values[..d] + values[d + 1..]);
    JoinGrows(t, values[..d] + values[d + 1..]);
    assert Join(t) == values[d];
  }

  lemma TakenEnds(values: seq<string>, d: nat)
    requires d < |values|
    ensures Join(Taken(values, d, 0)) == values[d]
    ensures Taken(values, d, d + 1) == Taken(values, d, d)
    ensures Taken(values, d, |values|) == Arranged(values, d)
  {
    assert Taken(values, d, 0) == [values[d]];
  }

  lemma TakenNext(values: seq<string>, d: nat, j: nat)
    requires d < |values| && j < |values| && j != d
    ensures Taken(values, d, j + 1) == Taken(values, d, j) + [values[j]]
  {
    if j < d {
      assert values[..j + 1] == values[..j] + [values[j]];
    } else {
      assert values[d + 1..j + 1] == values[d + 1..j] + [values[j]];
    }
  }

  lemma TakenOfArranged(values: seq<string>, d: nat, j: nat)
    requires d < |values| && j <= |values|
    ensures |Taken(values, d, j)| <= |values| && Taken(values, d, j) <= Arranged(values, d)
  {
  }

  /** What is still to be printed fits in what is left. */
  lemma RoomForNext(values: seq<string>, d: nat, j: nat)
    requires d < |values| && j < |values| && j != d
    ensures Taken(values, d, j + 1) == Taken(values, d, j) + [values[j]]
    ensures |Join(Taken(values, d, j))| + 1 + |values[j]| <= |Join(Arranged(values, d))|
  {
    TakenNext(values, d, j);
    TakenOfArranged(values, d, j + 1);
    var all, next := Arranged(values, d), Taken(values, d, j + 1);
    assert all == next + all[|next|..];
    JoinGrows(next, all[|next|..]);
    NextShown("", Taken(values, d, j), values[j]);
  }
}
