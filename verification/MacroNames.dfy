/** Macro names for translatable texts (intl/core_option_translation.py).
  *
  * Every text found in the option structs gets a macro of its own, per language.  The parser's
  * regular expressions are outside the model: structs arrive as parsed records, and option names
  * and value keys already cleaned. */
module MacroNames {
  import opened Common

  // ---------------------------------------------------------------- decimal numbers

  function Digit(d: nat): char
    requires d < 10
  {
    "0123456789"[d]
  }

  function Str(n: nat): (s: string)
    ensures s != ""
  {
    if n < 10 then [Digit(n)] else Str(n / 10) + [Digit(n % 10)]
  }

  /** The number a string of digits stands for. */
  function NumberIn(s: string): int {
    if s == "" then 0 else NumberIn(s[..|s|-1]) * 10 + (s[|s|-1] as int - '0' as int)
  }

  /** Decimal, without leading zeros. */
  lemma {:induction false} StrIsDecimal(n: nat)
    ensures NumberIn(Str(n)) == n && (n > 0 ==> Str(n)[0] != '0')
    ensures forall c :: c in Str(n) ==> '0' <= c <= '9'
  {
    DigitsInOrder(n % 10);
    if n >= 10 {
      StrIsDecimal(n / 10);
      assert Str(n)[..|Str(n)|-1] == Str(n / 10);
    } else {
      assert Str(n)[..0] == "";
    }
  }

  lemma StrInjective(a: nat, b: nat)
    requires Str(a) == Str(b)
    ensures a == b
  {
    StrIsDecimal(a);
    StrIsDecimal(b);
  }

  lemma DigitsInOrder(d: nat)
    requires d < 10
    ensures Digit(d) as int == '0' as int + d
  {
    var ds := "0123456789";
    assert ds[0] == '0' && ds[1] == '1' && ds[2] == '2' && ds[3] == '3' && ds[4] == '4';
    assert ds[5] == '5' && ds[6] == '6' && ds[7] == '7' && ds[8] == '8' && ds[9] == '9';
  }

  // ---------------------------------------------------------------- a name not taken

  /** The names tried, in order: the base, the base with the option number, then numbered. */
  function Candidate(base: string, opt: nat, k: nat): string {
    if k == 0 then base
    else if k == 1 then base + "_O" + Str(opt)
    else base + "_O" + Str(opt) + "_" + Str(k - 2)
  }

  lemma CandidatesDiffer(base: string, opt: nat, i: nat, j: nat)
    requires i < j
    ensures Candidate(base, opt, i) != Candidate(base, opt, j)
  {
    var h := base + "_O" + Str(opt);
    assert |h| > |base|;
    if i >= 2 {
      var s, t := Candidate(base, opt, i), Candidate(base, opt, j);
      if s == t {
        assert s[|h| + 1..] == Str(i - 2) && t[|h| + 1..] == Str(j - 2);
        StrInjective(i - 2, j - 2);
      }
    } else if i == 1 {
      assert |Candidate(base, opt, j)| > |h|;
    } else if j > 1 {
      assert |Candidate(base, opt, j)| > |h|;
    }
  }

  function FirstCandidates(base: string, opt: nat, k: nat): set<string> {
    if k == 0 then {} else FirstCandidates(base, opt, k - 1) + {Candidate(base, opt, k - 1)}
  }

  lemma {:induction false} CandidateCount(base: string, opt: nat, k: nat)
    ensures |FirstCandidates(base, opt, k)| == k
    ensures forall s :: s in FirstCandidates(base, opt, k) <==> exists j :: 0 <= j < k && s == Candidate(base, opt, j)
  {
    if k > 0 {
      CandidateCount(base, opt, k - 1);
      forall j | 0 <= j < k - 1 ensures Candidate(base, opt, j) != Candidate(base, opt, k - 1) {
        CandidatesDiffer(base, opt, j, k - 1);
      }
    }
  }

  /** Pigeonhole: a finite set cannot hold more candidates than it has members. */
  lemma Pigeonhole(base: string, opt: nat, taken: set<string>, k: nat)
    requires forall j :: 0 <= j < k ==> Candidate(base, opt, j) in taken
    ensures k <= |taken|
  {
    CandidateCount(base, opt, k);
    SubsetSize(FirstCandidates(base, opt, k), taken);
  }

  /** Number of the first candidate not taken, from k on. */
  function FirstFree(base: string, opt: nat, taken: set<string>, k: nat): (r: nat)
    requires forall j :: 0 <= j < k ==> Candidate(base, opt, j) in taken
    ensures Candidate(base, opt, r) !in taken
    ensures r >= k && forall j :: 0 <= j < r ==> Candidate(base, opt, j) in taken
    decreases |taken| - k
  {
    if Candidate(base, opt, k) !in taken then k
    else
      Pigeonhole(base, opt, taken, k + 1);
      FirstFree(base, opt, taken, k + 1)
  }

  /** create_non_dupe as a function: the first candidate that is free. */
  function NonDupe(base: string, opt: nat, taken: set<string>): (h: string)
    ensures h !in taken && base <= h && (base !in taken ==> h == base)
  {
    Candidate(base, opt, FirstFree(base, opt, taken, 0))
  }

  /** The names tried, spelled out. */
  lemma NamesTried(base: string, opt: nat, j: nat)
    ensures Candidate(base, opt, 0) == base
    ensures Candidate(base, opt, 1) == base + "_O" + Str(opt)
    ensures Candidate(base, opt, j + 2) == base + "_O" + Str(opt) + "_" + Str(j)
  {
  }

  /** Which name it is: the base if nothing has it, else the base with the option's number, else that
    * with the first count from 0 up that makes it new. */
  lemma NamesInOrder(base: string, opt: nat, taken: set<string>, numbered: string)
    requires numbered == base + "_O" + Str(opt)
    ensures base !in taken ==> NonDupe(base, opt, taken) == base
    ensures base in taken && numbered !in taken ==> NonDupe(base, opt, taken) == numbered
    ensures base in taken && numbered in taken ==>
      exists n: nat :: FirstCount(NonDupe(base, opt, taken), numbered, taken, n)
  {
    var k := FirstFree(base, opt, taken, 0);
    NamesTried(base, opt, 0);
    if k >= 2 {
      NamesTried(base, opt, k - 2);
      forall j | 0 <= j < k - 2 ensures numbered + "_" + Str(j) in taken {
        NamesTried(base, opt, j);
        assert Candidate(base, opt, j + 2) in taken;
      }
      assert FirstCount(NonDupe(base, opt, taken), numbered, taken, k - 2);
    }
  }

  ghost predicate FirstCount(h: string, numbered: string, taken: set<string>, n: nat) {
    h == numbered + "_" + Str(n) && forall j :: 0 <= j < n ==> numbered + "_" + Str(j) in taken
  }

  lemma FirstFreeUnique(base: string, opt: nat, taken: set<string>, k: nat)
    requires Candidate(base, opt, k) !in taken && forall j :: 0 <= j < k ==> Candidate(base, opt, j) in taken
    ensures FirstFree(base, opt, taken, 0) == k
  {
  }

  /** create_non_dupe: it ends for every finite comparison set, with a name outside it. */
  method CreateNonDupe(base: string, opt: nat, taken: set<string>) returns (h: string)
    ensures h !in taken && h == NonDupe(base, opt, taken)
  {
    h := base;
    ghost var k := 0;
    if h in taken {
      var n := 0;
      h := h + "_O" + Str(opt);
      k := 1;
      var hEnd := |h|;
      ghost var head := h;
      while h in taken
        invariant hEnd == |head| && head == base + "_O" + Str(opt) && head <= h
        invariant k == n + 1 && h == Candidate(base, opt, k)
        invariant forall j :: 0 <= j < k ==> Candidate(base, opt, j) in taken
        decreases |taken| - k
      {
        Pigeonhole(base, opt, taken, k + 1);
        assert h[..hEnd] == head;
        h := h[..hEnd] + "_" + Str(n);
        n := n + 1;
        k := k + 1;
      }
    }
    FirstFreeUnique(base, opt, taken, k);
  }

  // ---------------------------------------------------------------- one language

  /** hash_n_string and just_string of one language. */
  datatype Lang = Lang(macros: map<string, string>, seen: set<string>)

  predicate ViableValue(text: string) { 2 < |text| && text != "NULL" }

  predicate Viable(text: string, seen: set<string>) { ViableValue(text) && text !in seen }

  function AddText(l: Lang, base: string, opt: nat, text: string): Lang {
    Lang(l.macros[NonDupe(base, opt, l.macros.Keys) := text], l.seen + {text})
  }

  function AddIfNew(l: Lang, base: string, opt: nat, text: string): Lang {
    if Viable(text, l.seen) then AddText(l, base, opt, text) else l
  }

  /** Macros and seen texts are in one-to-one correspondence. */
  ghost predicate Bijection(l: Lang) {
    && (forall m :: m in l.macros ==> l.macros[m] in l.seen)
    && (forall t :: t in l.seen ==> exists m :: m in l.macros && l.macros[m] == t)
    && (forall m, k :: m in l.macros && k in l.macros && l.macros[m] == l.macros[k] ==> m == k)
  }

  /** A new text gets a macro nothing else has: no macro is overwritten, and the correspondence
    * is kept. */
  lemma AddKeepsBijection(l: Lang, base: string, opt: nat, text: string)
    requires Bijection(l) && text !in l.seen
    ensures Bijection(AddText(l, base, opt, text))
    ensures var m := NonDupe(base, opt, l.macros.Keys);
      m !in l.macros && AddText(l, base, opt, text).macros == l.macros[m := text]
      && forall k :: k in l.macros ==> AddText(l, base, opt, text).macros[k] == l.macros[k]
  {
    var m, t := NonDupe(base, opt, l.macros.Keys), AddText(l, base, opt, text);
    forall x | x in t.seen ensures exists k :: k in t.macros && t.macros[k] == x {
      if x == text {
        assert t.macros[m] == text;
      } else {
        var k :| k in l.macros && l.macros[k] == x;
        assert t.macros[k] == x;
      }
    }
  }

  /** re.sub(r'__+', '_', s). */
  function Collapse(s: string): string {
    if |s| < 2 then s
    else if s[0] == '_' && s[1] == '_' then Collapse(s[1..])
    else [s[0]] + Collapse(s[1..])
  }

  function InfoMacro(name: string, j: nat): string { Collapse(name + "_INFO_" + Str(j)) }

  /** The info loop over infos[j..]: the texts and the macro made last, if any. */
  function AddInfos(l: Lang, name: string, opt: nat, infos: seq<string>, j: nat,
      last: Option<string>): (Lang, Option<string>)
    requires j <= |infos|
    decreases |infos| - j
  {
    if j == |infos| then (l, last)
    else if Viable(infos[j], l.seen) then
      AddInfos(AddText(l, InfoMacro(name, j), opt, infos[j]), name, opt, infos, j + 1,
               Some(NonDupe(InfoMacro(name, j), opt, l.macros.Keys)))
    else AddInfos(l, name, opt, infos, j + 1, last)
  }

  /** The category key of a version 2 definition is the last of its infos and is not to be
    * translated: it is taken out again, by the macro made last.  None is Python's KeyError. */
  function DropCategoryKey(l: Lang, infos: seq<string>, made: Option<string>): Option<Lang> {
    if infos == [] || infos[|infos|-1] !in l.seen then Some(l)
    else if made.None? || made.value !in l.macros then None
    else Some(Lang(l.macros - {made.value}, l.seen - {infos[|infos|-1]}))
  }

  function CategoryInfos(l: Lang, name: string, opt: nat, infos: seq<string>): Option<Lang> {
    var (m, made) := AddInfos(l, name, opt, infos, 0, None);
    DropCategoryKey(m, infos, made)
  }

  /** The text the loop added last, if it added any. */
  function AddedLast(seen: set<string>, infos: seq<string>, j: nat, last: Option<string>): Option<string>
    requires j <= |infos|
    decreases |infos| - j
  {
    if j == |infos| then last
    else if Viable(infos[j], seen) then AddedLast(seen + {infos[j]}, infos, j + 1, Some(infos[j]))
    else AddedLast(seen, infos, j + 1, last)
  }

  function SeenAfter(seen: set<string>, infos: seq<string>, j: nat): set<string>
    requires j <= |infos|
    decreases |infos| - j
  {
    if j == |infos| then seen
    else SeenAfter(if Viable(infos[j], seen) then seen + {infos[j]} else seen, infos, j + 1)
  }

  /** Can be checked before the option is processed: its category key is either no text at all
    * for the loop, or the last text the loop adds. */
  predicate KeyIsFresh(seen: set<string>, infos: seq<string>) {
    infos == [] || infos[|infos|-1] !in SeenAfter(seen, infos, 0)
    || AddedLast(seen, infos, 0, None) == Some(infos[|infos|-1])
  }

  lemma {:induction false} InfosKeepBijection(l: Lang, name: string, opt: nat, infos: seq<string>, j: nat,
      made: Option<string>, last: Option<string>)
    requires Bijection(l) && j <= |infos|
    requires made.Some? <==> last.Some?
    requires made.Some? ==> made.value in l.macros && l.macros[made.value] == last.value
    ensures var (m, made') := AddInfos(l, name, opt, infos, j, made);
      var last' := AddedLast(l.seen, infos, j, last);
      && Bijection(m) && m.seen == SeenAfter(l.seen, infos, j)
      && (made'.Some? <==> last'.Some?)
      && (made'.Some? ==> made'.value in m.macros && m.macros[made'.value] == last'.value)
    decreases |infos| - j
  {
    if j < |infos| {
      if Viable(infos[j], l.seen) {
        var h := NonDupe(InfoMacro(name, j), opt, l.macros.Keys);
        AddKeepsBijection(l, InfoMacro(name, j), opt, infos[j]);
        InfosKeepBijection(AddText(l, InfoMacro(name, j), opt, infos[j]), name, opt, infos, j
          + 1, Some(h), Some(infos[j]));
      } else {
        InfosKeepBijection(l, name, opt, infos, j + 1, made, last);
      }
    }
  }

  lemma RemoveMacro(l: Lang, m: string, key: string)
    requires Bijection(l) && m in l.macros && key in l.seen
    ensures Bijection(Lang(l.macros - {m}, l.seen - {key})) <==> l.macros[m] == key
  {
    var t := Lang(l.macros - {m}, l.seen - {key});
    if l.macros[m] == key {
      forall x | x in t.seen ensures exists k :: k in t.macros && t.macros[k] == x {
        var k :| k in l.macros && l.macros[k] == x;
        assert k != m && t.macros[k] == x;
      }
    } else {
      var x := l.macros[m];
      assert x in t.seen;
      assert forall k :: k in t.macros ==> k in l.macros && k != m;
    }
  }

  /** Exactly when the category key comes out again.  Processing the infos of a version 2 option
    * keeps macros and texts in correspondence if and only if its category key is fresh; if it is
    * not, the wrong macro is removed (or none exists and the parse fails). */
  lemma CategoryKeepsBijectionIffFresh(l: Lang, name: string, opt: nat, infos: seq<string>)
    requires Bijection(l)
    ensures var r := CategoryInfos(l, name, opt, infos);
      (r.Some? && Bijection(r.value)) <==> KeyIsFresh(l.seen, infos)
  {
    InfosKeepBijection(l, name, opt, infos, 0, None, None);
    var (m, made) := AddInfos(l, name, opt, infos, 0, None);
    if infos != [] && infos[|infos|-1] in m.seen && made.Some? {
      RemoveMacro(m, made.value, infos[|infos|-1]);
    }
  }

  // ---------------------------------------------------------------- whole files

  datatype Pair = Pair(key: string, value: string, clean: string)

  /** A parsed option; None where the parser's group is missing. */
  datatype Parsed = Parsed(name: Option<string>, desc: Option<string>, infos: Option<seq<string>>, values: seq<Pair>)

  datatype Kind = Definition2 | Category | Plain

  datatype Struct = Struct(kind: Kind, lang: string, options: seq<Parsed>)

  function ValueText(p: Pair): string { if ViableValue(p.value) then p.value else p.key }

  /** One value; `known` is what RetroArch translates itself or is purely numeric. */
  function AddValue(l: Lang, opt: nat, p: Pair, known: string -> bool): Lang {
    if Viable(ValueText(p), l.seen) && !known(ValueText(p))
    then AddText(l, Collapse("OPTION_VAL_" + p.clean), opt, ValueText(p))
    else l
  }

  /** The value loop. */
  function AddValues(l: Lang, opt: nat, values: seq<Pair>, known: string -> bool, j: nat): Lang
    requires j <= |values|
    decreases |values| - j
  {
    if j == |values| then l else AddValues(AddValue(l, opt, values[j], known), opt, values, known, j + 1)
  }

  /** The category label, if this is a version 2 definition, and the info texts. */
  function AddAllInfos(l: Lang, kind: Kind, name: string, opt: nat, infos: seq<string>): Option<Lang> {
    if !kind.Definition2? then Some(AddInfos(l, name, opt, infos, 0, None).0)
    else if infos == [] then None
    else CategoryInfos(AddIfNew(l, Collapse(name + "_LABEL_CAT"), opt, infos[0]), name, opt, infos[1..])
  }

  function NameOf(kind: Kind, key: string): string { (if kind.Category? then "CATEGORY_" else "") + key }

  /** One option; None is an exception. */
  function AddOption(l: Lang, kind: Kind, opt: nat, o: Parsed, known: string -> bool): Option<Lang> {
    if o.name.None? || o.desc.None? || o.infos.None? then None
    else
      var name := NameOf(kind, o.name.value);
      var l2 := AddAllInfos(AddIfNew(l, Collapse(name + "_LABEL"), opt, o.desc.value), kind, name, opt, o.infos.value);
      if l2.None? then None else Some(AddValues(l2.value, opt, o.values, known, 0))
  }

  /** The texts of an option's label and category label, in force when its infos are read. */
  function SeenBeforeInfos(l: Lang, o: Parsed): set<string>
    requires o.desc.Some? && o.infos.Some? && o.infos.value != []
  {
    var s1 := if Viable(o.desc.value, l.seen) then l.seen + {o.desc.value} else l.seen;
    if Viable(o.infos.value[0], s1) then s1 + {o.infos.value[0]} else s1
  }

  predicate WellParsed(kind: Kind, o: Parsed) {
    o.name.Some? && o.desc.Some? && o.infos.Some? && (kind.Definition2? ==> o.infos.value != [])
  }

  predicate OptionFresh(l: Lang, kind: Kind, o: Parsed)
    requires WellParsed(kind, o)
  {
    kind.Definition2? ==> KeyIsFresh(SeenBeforeInfos(l, o), o.infos.value[1..])
  }

  lemma {:induction false} ValuesKeepBijection(l: Lang, opt: nat, values: seq<Pair>, known: string -> bool, j: nat)
    requires Bijection(l) && j <= |values|
    ensures Bijection(AddValues(l, opt, values, known, j))
    decreases |values| - j
  {
    if j < |values| {
      var p := values[j];
      if Viable(ValueText(p), l.seen) && !known(ValueText(p)) {
        AddKeepsBijection(l, Collapse("OPTION_VAL_" + p.clean), opt, ValueText(p));
      }
      ValuesKeepBijection(AddValue(l, opt, p, known), opt, values, known, j + 1);
    }
  }

  lemma NewKeepsBijection(l: Lang, base: string, opt: nat, text: string)
    requires Bijection(l)
    ensures Bijection(AddIfNew(l, base, opt, text))
    ensures AddIfNew(l, base, opt, text).seen == if Viable(text, l.seen) then l.seen + {text} else l.seen
  {
    if Viable(text, l.seen) {
      AddKeepsBijection(l, base, opt, text);
    }
  }

  lemma AllInfosKeepBijection(l: Lang, kind: Kind, name: string, opt: nat, infos: seq<string>)
    requires Bijection(l)
    ensures var r := AddAllInfos(l, kind, name, opt, infos);
      var s := if infos != [] && Viable(infos[0], l.seen) then l.seen + {infos[0]} else l.seen;
      (r.Some? && Bijection(r.value)) <==> (kind.Definition2? ==> infos != [] && KeyIsFresh(s, infos[1..]))
  {
    if kind.Definition2? && infos != [] {
      NewKeepsBijection(l, Collapse(name + "_LABEL_CAT"), opt, infos[0]);
      CategoryKeepsBijectionIffFresh(AddIfNew(l, Collapse(name + "_LABEL_CAT"), opt, infos[0]), name, opt, infos[1..]);
    } else if !kind.Definition2? {
      InfosKeepBijection(l, name, opt, infos, 0, None, None);
    }
  }

  /** A text that counts as seen but has lost its macro. */
  ghost predicate Orphan(l: Lang, text: string) {
    text in l.seen && forall m :: m in l.macros ==> l.macros[m] != text
  }

  /** No later text brings it back. */
  lemma {:induction false} ValuesKeepOrphan(l: Lang, opt: nat, values: seq<Pair>, known: string -> bool, j: nat,
      text: string)
    requires Orphan(l, text) && j <= |values|
    ensures Orphan(AddValues(l, opt, values, known, j), text)
    decreases |values| - j
  {
    if j < |values| {
      ValuesKeepOrphan(AddValue(l, opt, values[j], known), opt, values, known, j + 1, text);
    }
  }

  /** The wrong macro is removed: its text is left without one. */
  lemma WrongDropOrphans(l: Lang, name: string, opt: nat, infos: seq<string>) returns (text: string)
    requires Bijection(l) && !KeyIsFresh(l.seen, infos) && CategoryInfos(l, name, opt, infos).Some?
    ensures Orphan(CategoryInfos(l, name, opt, infos).value, text)
  {
    InfosKeepBijection(l, name, opt, infos, 0, None, None);
    var (m, made) := AddInfos(l, name, opt, infos, 0, None);
    text := m.macros[made.value];
  }

  ghost predicate Corresponds(r: Option<Lang>) { r.Some? && Bijection(r.value) }

  /** One option of any kind, values included, keeps the correspondence if and only if it is well
    * parsed and its category key is fresh. */
  lemma OptionKeepsBijection(l: Lang, kind: Kind, opt: nat, o: Parsed, known: string -> bool)
    requires Bijection(l)
    ensures Corresponds(AddOption(l, kind, opt, o, known)) <==> WellParsed(kind, o) && OptionFresh(l, kind, o)
  {
    if WellParsed(kind, o) {
      var name, infos := NameOf(kind, o.name.value), o.infos.value;
      var l1 := AddIfNew(l, Collapse(name + "_LABEL"), opt, o.desc.value);
      NewKeepsBijection(l, Collapse(name + "_LABEL"), opt, o.desc.value);
      AllInfosKeepBijection(l1, kind, name, opt, infos);
      var r := AddAllInfos(l1, kind, name, opt, infos);
      if OptionFresh(l, kind, o) {
        ValuesKeepBijection(r.value, opt, o.values, known, 0);
      } else if r.Some? {
        var l2 := AddIfNew(l1, Collapse(name + "_LABEL_CAT"), opt, infos[0]);
        NewKeepsBijection(l1, Collapse(name + "_LABEL_CAT"), opt, infos[0]);
        var text := WrongDropOrphans(l2, name, opt, infos[1..]);
        ValuesKeepOrphan(r.value, opt, o.values, known, 0, text);
      }
    }
  }

  /** The options of one struct in order; the option number restarts with each struct. */
  function AddOptions(l: Lang, s: Struct, known: string -> bool, n: nat): Option<Lang>
    requires n <= |s.options|
  {
    if n == 0 then Some(l)
    else
      var p := AddOptions(l, s, known, n - 1);
      if p.None? then None else AddOption(p.value, s.kind, n - 1, s.options[n-1], known)
  }

  function LangOf(langs: map<string, Lang>, lang: string): Lang {
    if lang in langs then langs[lang] else Lang(map[], {})
  }

  /** get_texts. */
  function GetTexts(structs: seq<Struct>, known: string -> bool): Option<map<string, Lang>> {
    if structs == [] then Some(map[])
    else
      var p, s := GetTexts(structs[..|structs|-1], known), structs[|structs|-1];
      if p.None? then None
      else
        var r := AddOptions(LangOf(p.value, s.lang), s, known, |s.options|);
        if r.None? then None else Some(p.value[s.lang := r.value])
  }

  /** Every option of the file is well parsed and, where it is reached, its key is fresh. */
  ghost predicate StructFresh(l: Lang, s: Struct, known: string -> bool, n: nat)
    requires n <= |s.options|
  {
    n > 0 ==>
      && StructFresh(l, s, known, n - 1)
      && WellParsed(s.kind, s.options[n-1])
      && (AddOptions(l, s, known, n - 1).Some? ==>
            OptionFresh(AddOptions(l, s, known, n - 1).value, s.kind, s.options[n-1]))
  }

  ghost predicate FileFresh(structs: seq<Struct>, known: string -> bool) {
    structs != [] ==>
      && FileFresh(structs[..|structs|-1], known)
      && (GetTexts(structs[..|structs|-1], known).Some? ==>
            var s := structs[|structs|-1];
            StructFresh(LangOf(GetTexts(structs[..|structs|-1], known).value, s.lang), s, known, |s.options|))
  }

  /** After each of the first n options of the struct, and not only at the end. */
  ghost predicate StructCorresponds(l: Lang, s: Struct, known: string -> bool, n: nat)
    requires n <= |s.options|
  {
    forall j :: 0 <= j <= n ==> Corresponds(AddOptions(l, s, known, j))
  }

  lemma {:induction false} StructKeepsBijection(l: Lang, s: Struct, known: string -> bool, n: nat)
    requires n <= |s.options| && Bijection(l)
    ensures StructFresh(l, s, known, n) <==> StructCorresponds(l, s, known, n)
  {
    if n > 0 {
      StructKeepsBijection(l, s, known, n - 1);
      NextCorresponds(l, s, known, n - 1);
      var p := AddOptions(l, s, known, n - 1);
      if StructCorresponds(l, s, known, n - 1) {
        assert Corresponds(p);
        OptionKeepsBijection(p.value, s.kind, n - 1, s.options[n-1], known);
        assert AddOptions(l, s, known, n) == AddOption(p.value, s.kind, n - 1, s.options[n-1], known);
      }
    }
  }

  lemma NextCorresponds(l: Lang, s: Struct, known: string -> bool, n: nat)
    requires n < |s.options|
    ensures StructCorresponds(l, s, known, n + 1) <==>
      StructCorresponds(l, s, known, n) && Corresponds(AddOptions(l, s, known, n + 1))
  {
  }

  lemma FreshStruct(l: Lang, s: Struct, known: string -> bool)
    requires Bijection(l) && StructFresh(l, s, known, |s.options|)
    ensures Corresponds(AddOptions(l, s, known, |s.options|))
  {
    StructKeepsBijection(l, s, known, |s.options|);
  }

  lemma {:induction false} FreshFilesAreBijections(structs: seq<Struct>, known: string -> bool)
    requires FileFresh(structs, known)
    ensures OneToOne(GetTexts(structs, known))
  {
    if structs != [] {
      FreshFilesAreBijections(structs[..|structs|-1], known);
      var s := structs[|structs|-1];
      FreshStruct(LangOf(GetTexts(structs[..|structs|-1], known).value, s.lang), s, known);
    }
  }

  /** The parse came to an end, and in every language macros and texts correspond. */
  ghost predicate OneToOne(r: Option<map<string, Lang>>) {
    r.Some? && forall lang :: lang in r.value ==> Bijection(r.value[lang])
  }

  // ---------------------------------------------------------------- every beginning of a file

  /** The file up to option n of struct i. */
  function Cut(structs: seq<Struct>, i: nat, n: nat): seq<Struct>
    requires i < |structs| && n <= |structs[i].options|
  {
    structs[..i] + [structs[i].(options := structs[i].options[..n])]
  }

  lemma {:induction false} CutOptions(l: Lang, s: Struct, known: string -> bool, n: nat, k: nat)
    requires k <= n <= |s.options|
    ensures AddOptions(l, s.(options := s.options[..n]), known, k) == AddOptions(l, s, known, k)
  {
    if k > 0 {
      CutOptions(l, s, known, n, k - 1);
    }
  }

  /** What parsing the cut file leaves. */
  lemma CutTexts(structs: seq<Struct>, known: string -> bool, i: nat, n: nat)
    requires i < |structs| && n <= |structs[i].options| && OneToOne(GetTexts(structs[..i], known))
    ensures var s, p := structs[i], GetTexts(structs[..i], known).value;
      && Bijection(LangOf(p, s.lang))
      && (OneToOne(GetTexts(Cut(structs, i, n), known)) <==>
            Corresponds(AddOptions(LangOf(p, s.lang), s, known, n)))
  {
    var s, p, c := structs[i], GetTexts(structs[..i], known).value, Cut(structs, i, n);
    assert c[..|c|-1] == structs[..i];
    CutOptions(LangOf(p, s.lang), s, known, n, n);
    var r := GetTexts(c, known);
    if r.Some? {
      assert r.value[s.lang] == AddOptions(LangOf(p, s.lang), s, known, n).value;
    }
  }

  ghost predicate CutsOneToOne(structs: seq<Struct>, known: string -> bool, i: nat)
    requires i < |structs|
  {
    forall n :: 0 <= n <= |structs[i].options| ==> OneToOne(GetTexts(Cut(structs, i, n), known))
  }

  ghost predicate AlwaysOneToOne(structs: seq<Struct>, known: string -> bool, k: nat)
    requires k <= |structs|
  {
    forall i :: 0 <= i < k ==> CutsOneToOne(structs, known, i)
  }

  lemma CutsAreFresh(structs: seq<Struct>, known: string -> bool, i: nat)
    requires i < |structs| && OneToOne(GetTexts(structs[..i], known))
    ensures var s := structs[i];
      CutsOneToOne(structs, known, i) <==>
        StructFresh(LangOf(GetTexts(structs[..i], known).value, s.lang), s, known, |s.options|)
  {
    var s := structs[i];
    var l := LangOf(GetTexts(structs[..i], known).value, s.lang);
    forall n | 0 <= n <= |s.options|
      ensures OneToOne(GetTexts(Cut(structs, i, n), known)) <==> Corresponds(AddOptions(l, s, known, n))
    {
      CutTexts(structs, known, i, n);
    }
    StructKeepsBijection(l, s, known, |s.options|);
  }

  /** The exact condition over a whole file: wherever the parse is stopped between two options, it
    * has been free of exceptions and its tables are one-to-one, if and only if every option is
    * well parsed and its category key is fresh when the parse reaches it. */
  lemma {:induction false} FreshIffAlwaysOneToOne(structs: seq<Struct>, known: string -> bool, k: nat)
    requires k <= |structs|
    ensures FileFresh(structs[..k], known) <==> AlwaysOneToOne(structs, known, k)
    decreases k
  {
    if k > 0 {
      FreshIffAlwaysOneToOne(structs, known, k - 1);
      assert structs[..k][..k-1] == structs[..k-1];
      assert AlwaysOneToOne(structs, known, k) <==>
        AlwaysOneToOne(structs, known, k - 1) && CutsOneToOne(structs, known, k - 1);
      if FileFresh(structs[..k-1], known) {
        FreshFilesAreBijections(structs[..k-1], known);
        CutsAreFresh(structs, known, k - 1);
      }
    }
  }

  // ---------------------------------------------------------------- clean files

  /** A version 2 definition with an info after its category label: the last one is the key. */
  predicate HasCategoryKey(kind: Kind, o: Parsed) {
    kind.Definition2? && o.infos.Some? && |o.infos.value| >= 2
  }

  function CategoryKey(o: Parsed): string
    requires o.infos.Some? && o.infos.value != []
  {
    o.infos.value[|o.infos.value|-1]
  }

  /** Every category key the file names for a language. */
  ghost function CategoryKeys(structs: seq<Struct>, lang: string): set<string> {
    set s <- structs, o <- s.options | s.lang == lang && HasCategoryKey(s.kind, o) :: CategoryKey(o)
  }

  /** The infos of an option that are meant as texts: all but its category key. */
  function InfoTexts(kind: Kind, o: Parsed): seq<string>
    requires o.infos.Some?
  {
    if HasCategoryKey(kind, o) then o.infos.value[..|o.infos.value|-1] else o.infos.value
  }

  ghost predicate Avoids(texts: seq<string>, keys: set<string>) {
    forall i :: 0 <= i < |texts| ==> texts[i] !in keys
  }

  /** No label, info or value text of the option is one of the keys. */
  ghost predicate OptionAvoids(kind: Kind, o: Parsed, keys: set<string>)
    requires WellParsed(kind, o)
  {
    && o.desc.value !in keys
    && Avoids(InfoTexts(kind, o), keys)
    && forall i :: 0 <= i < |o.values| ==> ValueText(o.values[i]) !in keys
  }

  ghost predicate StructAvoids(s: Struct, keys: set<string>) {
    forall n :: 0 <= n < |s.options| ==> WellParsed(s.kind, s.options[n]) && OptionAvoids(s.kind, s.options[n], keys)
                                         && (HasCategoryKey(s.kind, s.options[n]) ==> CategoryKey(s.options[n]) in keys)
  }

  /** What can be read off a file before parsing it: every option is well parsed, and no label,
    * info or value text equals a category key of the same language. */
  ghost predicate CleanFile(structs: seq<Struct>) {
    forall i, n :: 0 <= i < |structs| && 0 <= n < |structs[i].options| ==>
      && WellParsed(structs[i].kind, structs[i].options[n])
      && OptionAvoids(structs[i].kind, structs[i].options[n], CategoryKeys(structs, structs[i].lang))
  }

  lemma CleanStructs(structs: seq<Struct>, i: nat)
    requires CleanFile(structs) && i < |structs|
    ensures StructAvoids(structs[i], CategoryKeys(structs, structs[i].lang))
  {
    var s := structs[i];
    forall n | 0 <= n < |s.options| && HasCategoryKey(s.kind, s.options[n])
      ensures CategoryKey(s.options[n]) in CategoryKeys(structs, s.lang)
    {
      assert s in structs && s.options[n] in s.options;
    }
  }

  lemma {:induction false} SeenAvoids(seen: set<string>, infos: seq<string>, j: nat, keys: set<string>)
    requires seen !! keys && Avoids(infos, keys) && j <= |infos|
    ensures SeenAfter(seen, infos, j) !! keys
    decreases |infos| - j
  {
    if j < |infos| {
      SeenAvoids(if Viable(infos[j], seen) then seen + {infos[j]} else seen, infos, j + 1, keys);
    }
  }

  /** Reading infos whose last is the only key among them: if it was taken as a text at all, it
    * was taken last, and without it no key has been seen. */
  lemma {:induction false} KeyComesLast(seen: set<string>, infos: seq<string>, j: nat, last: Option<string>,
      keys: set<string>)
    requires seen !! keys && j < |infos| && Avoids(infos[..|infos|-1], keys) && infos[|infos|-1] in keys
    ensures var key := infos[|infos|-1];
      && SeenAfter(seen, infos, j) - {key} !! keys
      && (key in SeenAfter(seen, infos, j) ==> AddedLast(seen, infos, j, last) == Some(key))
    decreases |infos| - j
  {
    var text := infos[j];
    var next := if Viable(text, seen) then seen + {text} else seen;
    if j + 1 < |infos| {
      assert text == infos[..|infos|-1][j];
      KeyComesLast(next, infos, j + 1, if Viable(text, seen) then Some(text) else last, keys);
    } else {
      assert SeenAfter(next, infos, j + 1) == next;
    }
  }

  lemma {:induction false} ValuesAvoid(l: Lang, opt: nat, values: seq<Pair>, known: string -> bool, j: nat,
      keys: set<string>)
    requires l.seen !! keys && j <= |values|
    requires forall i :: 0 <= i < |values| ==> ValueText(values[i]) !in keys
    ensures AddValues(l, opt, values, known, j).seen !! keys
    decreases |values| - j
  {
    if j < |values| {
      ValuesAvoid(AddValue(l, opt, values[j], known), opt, values, known, j + 1, keys);
    }
  }

  /** The infos of a clean option: the key is fresh, and afterwards no key has been seen. */
  lemma InfosAvoid(l: Lang, kind: Kind, name: string, opt: nat, o: Parsed, keys: set<string>)
    requires Bijection(l) && l.seen !! keys && WellParsed(kind, o) && Avoids(InfoTexts(kind, o), keys)
    requires HasCategoryKey(kind, o) ==> CategoryKey(o) in keys
    ensures var infos := o.infos.value;
      var seen := if infos != [] && Viable(infos[0], l.seen) then l.seen + {infos[0]} else l.seen;
      kind.Definition2? ==> KeyIsFresh(seen, infos[1..])
    ensures var r := AddAllInfos(l, kind, name, opt, o.infos.value);
      r.Some? ==> r.value.seen !! keys
  {
    var infos := o.infos.value;
    if !kind.Definition2? {
      SeenAvoids(l.seen, infos, 0, keys);
      InfosKeepBijection(l, name, opt, infos, 0, None, None);
    } else {
      var l2 := AddIfNew(l, Collapse(name + "_LABEL_CAT"), opt, infos[0]);
      NewKeepsBijection(l, Collapse(name + "_LABEL_CAT"), opt, infos[0]);
      assert infos[0] == InfoTexts(kind, o)[0];
      InfosKeepBijection(l2, name, opt, infos[1..], 0, None, None);
      if |infos| >= 2 {
        var rest := infos[1..];
        assert rest[..|rest|-1] == InfoTexts(kind, o)[1..];
        KeyComesLast(l2.seen, rest, 0, None, keys);
      }
    }
  }

  lemma OptionStaysClean(l: Lang, kind: Kind, opt: nat, o: Parsed, known: string -> bool, keys: set<string>)
    requires Bijection(l) && l.seen !! keys && WellParsed(kind, o) && OptionAvoids(kind, o, keys)
    requires HasCategoryKey(kind, o) ==> CategoryKey(o) in keys
    ensures OptionFresh(l, kind, o)
    ensures AddOption(l, kind, opt, o, known).Some? ==> AddOption(l, kind, opt, o, known).value.seen !! keys
  {
    var name := NameOf(kind, o.name.value);
    var l1 := AddIfNew(l, Collapse(name + "_LABEL"), opt, o.desc.value);
    NewKeepsBijection(l, Collapse(name + "_LABEL"), opt, o.desc.value);
    InfosAvoid(l1, kind, name, opt, o, keys);
    var l2 := AddAllInfos(l1, kind, name, opt, o.infos.value);
    if l2.Some? {
      ValuesAvoid(l2.value, opt, o.values, known, 0, keys);
    }
  }

  lemma Regroup(a: set<string>, b: set<string>, c: set<string>)
    ensures (a + b) + c == a + (b + c)
  {
  }

  lemma OptionGoesOn(l: Lang, kind: Kind, opt: nat, o: Parsed, known: string -> bool, keys: set<string>)
    requires Bijection(l) && l.seen !! keys && WellParsed(kind, o) && OptionAvoids(kind, o, keys)
    requires HasCategoryKey(kind, o) ==> CategoryKey(o) in keys
    ensures OptionFresh(l, kind, o) && Corresponds(AddOption(l, kind, opt, o, known))
    ensures var t := AddOption(l, kind, opt, o, known).value;
      t.seen !! keys && t.seen == l.seen + OptionTexts(kind, o, known)
  {
    OptionStaysClean(l, kind, opt, o, known, keys);
    OptionKeepsBijection(l, kind, opt, o, known);
    OptionSeen(l, kind, opt, o, known, keys);
  }

  lemma {:induction false} StructStaysClean(l: Lang, s: Struct, known: string -> bool, n: nat, keys: set<string>)
    requires Bijection(l) && l.seen !! keys && StructAvoids(s, keys) && n <= |s.options|
    ensures StructFresh(l, s, known, n) && Corresponds(AddOptions(l, s, known, n))
    ensures var t := AddOptions(l, s, known, n).value;
      t.seen !! keys && t.seen == l.seen + StructTexts(s, known, n)
  {
    if n > 0 {
      StructStaysClean(l, s, known, n - 1, keys);
      var p, o := AddOptions(l, s, known, n - 1).value, s.options[n-1];
      OptionGoesOn(p, s.kind, n - 1, o, known, keys);
      Regroup(l.seen, StructTexts(s, known, n - 1), OptionTexts(s.kind, o, known));
    }
  }

  /** Being clean is enough: whatever order the options come in, each key is fresh when the parse
    * reaches it. */
  lemma {:induction false} CleanIsFresh(structs: seq<Struct>, known: string -> bool, n: nat)
    requires CleanFile(structs) && n <= |structs|
    ensures FileFresh(structs[..n], known) && GetTexts(structs[..n], known).Some?
    ensures forall lang :: lang in GetTexts(structs[..n], known).value ==>
      Bijection(GetTexts(structs[..n], known).value[lang])
      && GetTexts(structs[..n], known).value[lang].seen !! CategoryKeys(structs, lang)
  {
    if n > 0 {
      CleanIsFresh(structs, known, n - 1);
      assert structs[..n][..n-1] == structs[..n-1];
      var s, p := structs[n-1], GetTexts(structs[..n-1], known).value;
      CleanStructs(structs, n - 1);
      StructStaysClean(LangOf(p, s.lang), s, known, |s.options|, CategoryKeys(structs, s.lang));
    }
  }

  /** For every file in which no label, info or value text equals a category key of its language,
    * the parse succeeds and in every language macros and texts are in one-to-one correspondence:
    * no macro stands for two texts, no text has two macros, and none was overwritten on the
    * way. */
  lemma TextsAreBijections(structs: seq<Struct>, known: string -> bool)
    requires CleanFile(structs)
    ensures OneToOne(GetTexts(structs, known)) && AlwaysOneToOne(structs, known, |structs|)
  {
    CleanIsFresh(structs, known, |structs|);
    assert structs[..|structs|] == structs;
    FreshFilesAreBijections(structs, known);
    FreshIffAlwaysOneToOne(structs, known, |structs|);
  }

  // ---------------------------------------------------------------- which texts

  /** Which texts are long enough to translate, and what a value is shown as. */
  lemma TextsThatCount(t: string, p: Pair)
    ensures ViableValue(t) <==> |t| >= 3 && t != "NULL"
    ensures ValueText(p) == if |p.value| >= 3 && p.value != "NULL" then p.value else p.key
  {
  }

  /** The texts an option brings: its label, its infos but not its category key, and its values but
    * not those translated elsewhere. */
  ghost function OptionTexts(kind: Kind, o: Parsed, known: string -> bool): set<string>
    requires WellParsed(kind, o)
  {
    (if ViableValue(o.desc.value) then {o.desc.value} else {})
    + Spoken(InfoTexts(kind, o)) + ValueTexts(o.values, known)
  }

  ghost function Spoken(ts: seq<string>): (r: set<string>)
    ensures forall t :: t in r <==> t in ts && ViableValue(t)
  {
    if ts == [] then {} else (if ViableValue(ts[0]) then {ts[0]} else {}) + Spoken(ts[1..])
  }

  ghost function ValueTexts(ps: seq<Pair>, known: string -> bool): set<string> {
    if ps == [] then {}
    else
      var t := ValueText(ps[0]);
      (if ViableValue(t) && !known(t) then {t} else {}) + ValueTexts(ps[1..], known)
  }

  ghost function StructTexts(s: Struct, known: string -> bool, n: nat): set<string>
    requires n <= |s.options| && forall j :: 0 <= j < n ==> WellParsed(s.kind, s.options[j])
  {
    if n == 0 then {} else StructTexts(s, known, n - 1) + OptionTexts(s.kind, s.options[n-1], known)
  }

  ghost predicate AllWellParsed(structs: seq<Struct>) {
    forall i, j :: 0 <= i < |structs| && 0 <= j < |structs[i].options| ==>
      WellParsed(structs[i].kind, structs[i].options[j])
  }

  /** All texts of one language in a file. */
  ghost function FileTexts(structs: seq<Struct>, known: string -> bool, lang: string): set<string>
    requires AllWellParsed(structs)
  {
    if structs == [] then {}
    else
      var s := structs[|structs|-1];
      FileTexts(structs[..|structs|-1], known, lang)
      + if s.lang == lang then StructTexts(s, known, |s.options|) else {}
  }

  lemma {:induction false} SeenAfterIs(seen: set<string>, infos: seq<string>, j: nat)
    requires j <= |infos|
    ensures SeenAfter(seen, infos, j) == seen + Spoken(infos[j..])
    decreases |infos| - j
  {
    if j < |infos| {
      assert infos[j..][1..] == infos[j + 1..];
      SeenAfterIs(if Viable(infos[j], seen) then seen + {infos[j]} else seen, infos, j + 1);
    }
  }

  lemma {:induction false} ValuesSeen(l: Lang, opt: nat, values: seq<Pair>, known: string -> bool, j: nat)
    requires j <= |values|
    ensures AddValues(l, opt, values, known, j).seen
         == l.seen + ValueTexts(values[j..], known)
    decreases |values| - j
  {
    if j < |values| {
      assert values[j..][1..] == values[j + 1..];
      ValuesSeen(AddValue(l, opt, values[j], known), opt, values, known, j + 1);
    }
  }

  lemma KeyComesOut(seen: set<string>, texts: seq<string>, key: string)
    requires key !in texts && key !in seen
    ensures var all := seen + Spoken(texts + [key]);
      (if key in all then all - {key} else all) == seen + Spoken(texts)
  {
  }

  lemma CategorySeen(l: Lang, name: string, opt: nat, texts: seq<string>, key: string)
    requires Bijection(l) && CategoryInfos(l, name, opt, texts + [key]).Some? && key !in texts && key !in l.seen
    ensures CategoryInfos(l, name, opt, texts + [key]).value.seen == l.seen + Spoken(texts)
  {
    var infos := texts + [key];
    InfosKeepBijection(l, name, opt, infos, 0, None, None);
    SeenAfterIs(l.seen, infos, 0);
    assert infos[0..] == infos;
    KeyComesOut(l.seen, texts, key);
  }

  /** With the category label in front. */
  lemma DefinitionSeen(l: Lang, base: string, name: string, opt: nat, texts: seq<string>, key: string)
    requires Bijection(l) && texts != [] && key !in texts && key !in l.seen
    requires CategoryInfos(AddIfNew(l, base, opt, texts[0]), name, opt, texts[1..] + [key]).Some?
    ensures CategoryInfos(AddIfNew(l, base, opt, texts[0]), name, opt, texts[1..] + [key]).value.seen
         == l.seen + Spoken(texts)
  {
    NewKeepsBijection(l, base, opt, texts[0]);
    CategorySeen(AddIfNew(l, base, opt, texts[0]), name, opt, texts[1..], key);
  }

  lemma PlainSeen(l: Lang, name: string, opt: nat, infos: seq<string>)
    requires Bijection(l)
    ensures AddInfos(l, name, opt, infos, 0, None).0.seen == l.seen + Spoken(infos)
  {
    InfosKeepBijection(l, name, opt, infos, 0, None, None);
    SeenAfterIs(l.seen, infos, 0);
    assert infos[0..] == infos;
  }

  lemma OnlyLabelSeen(l: Lang, base: string, name: string, opt: nat, infos: seq<string>)
    requires Bijection(l) && |infos| == 1
    requires CategoryInfos(AddIfNew(l, base, opt, infos[0]), name, opt, infos[1..]).Some?
    ensures CategoryInfos(AddIfNew(l, base, opt, infos[0]), name, opt, infos[1..]).value.seen == l.seen + Spoken(infos)
  {
    NewKeepsBijection(l, base, opt, infos[0]);
    assert infos[1..] == [];
  }

  lemma InfosSeen(l: Lang, kind: Kind, name: string, opt: nat, o: Parsed)
    requires Bijection(l) && WellParsed(kind, o) && AddAllInfos(l, kind, name, opt, o.infos.value).Some?
    requires HasCategoryKey(kind, o) ==> CategoryKey(o) !in InfoTexts(kind, o) && CategoryKey(o) !in l.seen
    ensures AddAllInfos(l, kind, name, opt, o.infos.value).value.seen == l.seen + Spoken(InfoTexts(kind, o))
  {
    var infos, texts, base := o.infos.value, InfoTexts(kind, o), Collapse(name + "_LABEL_CAT");
    if !kind.Definition2? {
      PlainSeen(l, name, opt, infos);
    } else if HasCategoryKey(kind, o) {
      assert infos[1..] == texts[1..] + [CategoryKey(o)] && texts[0] == infos[0];
      assert AddAllInfos(l, kind, name, opt, infos)
          == CategoryInfos(AddIfNew(l, base, opt, infos[0]), name, opt, infos[1..]);
      DefinitionSeen(l, base, name, opt, texts, CategoryKey(o));
    } else {
      OnlyLabelSeen(l, base, name, opt, infos);
    }
  }

  lemma OptionSeen(l: Lang, kind: Kind, opt: nat, o: Parsed, known: string -> bool, keys: set<string>)
    requires Bijection(l) && l.seen !! keys && WellParsed(kind, o) && OptionAvoids(kind, o, keys)
    requires HasCategoryKey(kind, o) ==> CategoryKey(o) in keys
    ensures var r := AddOption(l, kind, opt, o, known);
      r.Some? ==> r.value.seen == l.seen + OptionTexts(kind, o, known)
  {
    var name := NameOf(kind, o.name.value);
    var l1 := AddIfNew(l, Collapse(name + "_LABEL"), opt, o.desc.value);
    NewKeepsBijection(l, Collapse(name + "_LABEL"), opt, o.desc.value);
    var l2 := AddAllInfos(l1, kind, name, opt, o.infos.value);
    if l2.Some? {
      if HasCategoryKey(kind, o) {
        assert forall i :: 0 <= i < |InfoTexts(kind, o)| ==> InfoTexts(kind, o)[i] != CategoryKey(o);
      }
      InfosSeen(l1, kind, name, opt, o);
      ValuesSeen(l2.value, opt, o.values, known, 0);
      assert o.values[0..] == o.values;
    }
  }

  lemma CleanIsParsed(structs: seq<Struct>, n: nat)
    requires CleanFile(structs) && n <= |structs|
    ensures AllWellParsed(structs[..n])
  {
  }

  /** Nothing is forgotten and nothing made up: in a clean file the texts that have macros in a language
    * are exactly its labels, infos and values, category keys and texts translated elsewhere
    * excepted. */
  lemma {:induction false} TextsAreComplete(structs: seq<Struct>, known: string -> bool, n: nat, lang: string)
    requires CleanFile(structs) && n <= |structs|
    ensures AllWellParsed(structs[..n]) && GetTexts(structs[..n], known).Some?
    ensures LangOf(GetTexts(structs[..n], known).value, lang).seen == FileTexts(structs[..n], known, lang)
  {
    CleanIsParsed(structs, n);
    CleanIsFresh(structs, known, n);
    if n > 0 {
      TextsAreComplete(structs, known, n - 1, lang);
      CleanIsFresh(structs, known, n - 1);
      NextTexts(structs, known, n - 1, lang);
    }
  }

  lemma NextTexts(structs: seq<Struct>, known: string -> bool, n: nat, lang: string)
    requires CleanFile(structs) && n < |structs| && AllWellParsed(structs[..n]) && AllWellParsed(structs[..n + 1])
    requires GetTexts(structs[..n], known).Some? && GetTexts(structs[..n + 1], known).Some?
    requires var l := LangOf(GetTexts(structs[..n], known).value, lang);
      Bijection(l) && l.seen !! CategoryKeys(structs, lang) && l.seen == FileTexts(structs[..n], known, lang)
    ensures LangOf(GetTexts(structs[..n + 1], known).value, lang).seen == FileTexts(structs[..n + 1], known, lang)
  {
    var s, p := structs[n], GetTexts(structs[..n], known).value;
    assert structs[..n + 1][..n] == structs[..n] && structs[..n + 1][n] == s;
    assert GetTexts(structs[..n + 1], known).value
        == p[s.lang := AddOptions(LangOf(p, s.lang), s, known, |s.options|).value];
    if s.lang == lang {
      CleanStructs(structs, n);
      StructStaysClean(LangOf(p, lang), s, known, |s.options|, CategoryKeys(structs, lang));
    }
  }

  /** So each of those texts has one macro, and every macro is one of theirs. */
  lemma EachTextHasOneMacro(structs: seq<Struct>, known: string -> bool, lang: string, t: string)
    requires CleanFile(structs)
    ensures AllWellParsed(structs) && GetTexts(structs, known).Some?
    ensures var l := LangOf(GetTexts(structs, known).value, lang);
      && (t in FileTexts(structs, known, lang) <==> exists m :: m in l.macros && l.macros[m] == t)
      && (forall m, k :: m in l.macros && k in l.macros && l.macros[m] == t == l.macros[k] ==> m == k)
  {
    assert structs[..|structs|] == structs;
    TextsAreComplete(structs, known, |structs|, lang);
    TextsAreBijections(structs, known);
    assert Bijection(LangOf(GetTexts(structs, known).value, lang));
  }

  // ---------------------------------------------------------------- which names

  predicate NoDoubles(s: string) { forall i :: 0 <= i < |s| - 1 ==> !(s[i] == '_' && s[i + 1] == '_') }

  /** Runs of underscores become one, and nothing else changes. */
  lemma {:induction false} CollapseMeans(s: string)
    ensures NoDoubles(Collapse(s)) && (NoDoubles(s) ==> Collapse(s) == s)
    ensures (s == "" <==> Collapse(s) == "") && (s != "" ==> Collapse(s)[0] == s[0])
    ensures WithoutBars(Collapse(s)) == WithoutBars(s)
  {
    if |s| >= 2 {
      CollapseMeans(s[1..]);
      if s[0] != '_' || s[1] != '_' {
        var c := Collapse(s[1..]);
        assert Collapse(s) == [s[0]] + c && c[0] == s[1] && ([s[0]] + c)[1..] == c;
        assert NoDoubles(s) ==> NoDoubles(s[1..]);
      } else {
        assert !NoDoubles(s);
      }
    }
  }

  /** The characters that are not underscores. */
  function WithoutBars(s: string): string {
    if s == "" then "" else (if s[0] == '_' then "" else [s[0]]) + WithoutBars(s[1..])
  }

  /** Where a macro comes from: its name begins with the option's and the place of its text. */
  ghost predicate Origin(m: string, text: string, kind: Kind, o: Parsed)
    requires WellParsed(kind, o)
  {
    var name := (if kind.Category? then "CATEGORY_" else "") + o.name.value;
    || (text == o.desc.value && Collapse(name + "_LABEL") <= m)
    || (kind.Definition2? && text == o.infos.value[0] && Collapse(name + "_LABEL_CAT") <= m)
    || (exists j: nat :: FromInfo(m, text, name, Numbered(kind, o), j))
    || (exists p :: p in o.values && text == ValueText(p) && Collapse("OPTION_VAL_" + p.clean) <= m)
  }

  /** The infos that are numbered: in a definition those behind the category label. */
  function Numbered(kind: Kind, o: Parsed): seq<string>
    requires WellParsed(kind, o)
  {
    if kind.Definition2? then o.infos.value[1..] else o.infos.value
  }

  ghost predicate FromInfo(m: string, text: string, name: string, infos: seq<string>, j: nat) {
    j < |infos| && text == infos[j] && Collapse(name + "_INFO_" + Str(j)) <= m
  }

  /** The macros of l that base did not have, or had for another text. */
  ghost predicate IsNew(base: Lang, l: Lang, m: string) {
    m in l.macros && !(m in base.macros && base.macros[m] == l.macros[m])
  }

  lemma {:induction false} InfosOrigin(l: Lang, name: string, opt: nat, infos: seq<string>, j: nat,
      last: Option<string>, m: string)
    requires j <= |infos| && IsNew(l, AddInfos(l, name, opt, infos, j, last).0, m)
    ensures exists i: nat :: FromInfo(m, AddInfos(l, name, opt, infos, j, last).0.macros[m], name, infos, i)
    decreases |infos| - j
  {
    if j < |infos| {
      if Viable(infos[j], l.seen) {
        var h, next := NonDupe(InfoMacro(name, j), opt, l.macros.Keys), AddText(l, InfoMacro(name, j), opt, infos[j]);
        var r := AddInfos(next, name, opt, infos, j + 1, Some(h)).0;
        if IsNew(next, r, m) {
          InfosOrigin(next, name, opt, infos, j + 1, Some(h), m);
        } else {
          assert FromInfo(m, r.macros[m], name, infos, j);
        }
      } else {
        InfosOrigin(l, name, opt, infos, j + 1, last, m);
      }
    }
  }

  lemma {:induction false} ValuesOrigin(l: Lang, opt: nat, values: seq<Pair>, known: string -> bool, j: nat, m: string)
    requires j <= |values| && IsNew(l, AddValues(l, opt, values, known, j), m)
    ensures exists p :: p in values && AddValues(l, opt, values, known, j).macros[m] == ValueText(p)
                        && Collapse("OPTION_VAL_" + p.clean) <= m
    decreases |values| - j
  {
    if j < |values| {
      var next := AddValue(l, opt, values[j], known);
      if IsNew(next, AddValues(next, opt, values, known, j + 1), m) {
        ValuesOrigin(next, opt, values, known, j + 1, m);
      } else {
        assert values[j] in values && m == NonDupe(Collapse("OPTION_VAL_" + values[j].clean), opt, l.macros.Keys);
      }
    }
  }

  lemma InfosTellOrigin(l: Lang, kind: Kind, name: string, opt: nat, o: Parsed, m: string)
    requires WellParsed(kind, o) && AddAllInfos(l, kind, name, opt, o.infos.value).Some?
    requires IsNew(l, AddAllInfos(l, kind, name, opt, o.infos.value).value, m)
    ensures var text, infos := AddAllInfos(l, kind, name, opt, o.infos.value).value.macros[m], o.infos.value;
      || (kind.Definition2? && text == infos[0] && Collapse(name + "_LABEL_CAT") <= m)
      || (exists j: nat :: FromInfo(m, text, name, Numbered(kind, o), j))
  {
    var infos, rest := o.infos.value, Numbered(kind, o);
    if kind.Definition2? {
      var c := AddIfNew(l, Collapse(name + "_LABEL_CAT"), opt, infos[0]);
      var d := AddInfos(c, name, opt, rest, 0, None).0;
      if IsNew(c, d, m) {
        InfosOrigin(c, name, opt, rest, 0, None, m);
      } else {
        assert m == NonDupe(Collapse(name + "_LABEL_CAT"), opt, l.macros.Keys);
      }
    } else {
      InfosOrigin(l, name, opt, rest, 0, None, m);
    }
  }

  /** Every macro an option adds, in whatever file, tells by its name what it stands for. */
  lemma NamesTellOrigin(l: Lang, kind: Kind, opt: nat, o: Parsed, known: string -> bool, m: string)
    requires WellParsed(kind, o) && AddOption(l, kind, opt, o, known).Some?
    requires IsNew(l, AddOption(l, kind, opt, o, known).value, m)
    ensures Origin(m, AddOption(l, kind, opt, o, known).value.macros[m], kind, o)
  {
    var name := NameOf(kind, o.name.value);
    var l1 := AddIfNew(l, Collapse(name + "_LABEL"), opt, o.desc.value);
    var l2 := AddAllInfos(l1, kind, name, opt, o.infos.value).value;
    if IsNew(l2, AddValues(l2, opt, o.values, known, 0), m) {
      ValuesOrigin(l2, opt, o.values, known, 0, m);
    } else if IsNew(l1, l2, m) {
      InfosTellOrigin(l1, kind, name, opt, o, m);
    } else {
      assert m == NonDupe(Collapse(name + "_LABEL"), opt, l.macros.Keys);
    }
  }

  const VIDEO := "\"Video\""
  const SHADER := "\"Shader\""
  const SHARPEN := "\"Sharpens\""

  /** An option whose category key is also its own label. */
  const CLASHING := Parsed(Some("SHADER"), Some(VIDEO), Some([SHADER, SHARPEN, VIDEO]), [])

  lemma TextsDiffer()
    ensures VIDEO != SHADER && VIDEO != SHARPEN && SHADER != SHARPEN
    ensures ViableValue(VIDEO) && ViableValue(SHADER) && ViableValue(SHARPEN)
  {
    assert VIDEO[1] == 'V' && SHADER[1] == 'S' && SHARPEN[1] == 'S' && SHARPEN[4] == 'r' && SHADER[4] == 'd';
  }

  /** The first option leaves two macros, and a text without one. */
  lemma AfterClashing(l: Lang, known: string -> bool) returns (m1: string, m2: string)
    requires l == Lang(map[], {})
    ensures m1 != m2
    ensures AddOption(l, Definition2, 0, CLASHING, known)
         == Some(Lang(map[m1 := VIDEO, m2 := SHADER], {SHADER, SHARPEN}))
  {
    TextsDiffer();
    var name, infos := NameOf(Definition2, "SHADER"), [SHARPEN, VIDEO];
    var l1 := AddIfNew(l, Collapse(name + "_LABEL"), 0, VIDEO);
    m1 := NonDupe(Collapse(name + "_LABEL"), 0, {});
    assert l1 == Lang(map[m1 := VIDEO], {VIDEO});
    var l2 := AddIfNew(l1, Collapse(name + "_LABEL_CAT"), 0, SHADER);
    m2 := NonDupe(Collapse(name + "_LABEL_CAT"), 0, {m1});
    assert l1.macros.Keys == {m1} && l2 == Lang(map[m1 := VIDEO, m2 := SHADER], {VIDEO, SHADER});
    var m3 := NonDupe(InfoMacro(name, 0), 0, l2.macros.Keys);
    var l3 := AddText(l2, InfoMacro(name, 0), 0, SHARPEN);
    assert AddInfos(l2, name, 0, infos, 0, None) == AddInfos(l3, name, 0, infos, 1, Some(m3));
    assert AddInfos(l3, name, 0, infos, 1, Some(m3)) == AddInfos(l3, name, 0, infos, 2, Some(m3));
    assert CLASHING.infos.value[1..] == infos;
    assert l3.macros - {m3} == l2.macros && l3.seen - {VIDEO} == {SHADER, SHARPEN};
  }

  lemma ClashingOptionFails(l: Lang, known: string -> bool)
    requires l == Lang(map[], {})
    ensures var r := AddOption(l, Definition2, 0, CLASHING, known); r.Some? && !Bijection(r.value)
  {
    var _, _ := AfterClashing(l, known);
    TextsDiffer();
    assert Orphan(AddOption(l, Definition2, 0, CLASHING, known).value, SHARPEN);
  }

  /** A file that is not clean, and what becomes of it: the parse succeeds, but the info text has
    * lost its macro while it counts as seen, and the label keeps a macro without being seen. */
  lemma LabelAsCategoryKeyFails(known: string -> bool)
    ensures var r := GetTexts([Struct(Definition2, "_us", [CLASHING])], known);
      r.Some? && "_us" in r.value && !Bijection(r.value["_us"])
  {
    var s, l := Struct(Definition2, "_us", [CLASHING]), Lang(map[], {});
    ClashingOptionFails(l, known);
    assert AddOptions(l, s, known, 1) == AddOption(l, Definition2, 0, CLASHING, known);
    assert [s][..|[s]|-1] == [];
  }

  /** A second option, whose category key is the text that lost its macro. */
  const MENDING := Parsed(Some("FILTER"), Some(SHADER), Some([SHADER, VIDEO, SHARPEN]), [])

  lemma AfterMending(l: Lang, m1: string, m2: string, known: string -> bool)
    requires m1 != m2 && l == Lang(map[m1 := VIDEO, m2 := SHADER], {SHADER, SHARPEN})
    ensures AddOption(l, Definition2, 1, MENDING, known) == Some(Lang(l.macros, {VIDEO, SHADER}))
  {
    TextsDiffer();
    var name, infos := NameOf(Definition2, "FILTER"), [VIDEO, SHARPEN];
    var m3 := NonDupe(InfoMacro(name, 0), 1, l.macros.Keys);
    var l3 := AddText(l, InfoMacro(name, 0), 1, VIDEO);
    assert AddInfos(l, name, 1, infos, 0, None) == AddInfos(l3, name, 1, infos, 1, Some(m3));
    assert AddInfos(l3, name, 1, infos, 1, Some(m3)) == AddInfos(l3, name, 1, infos, 2, Some(m3));
    assert MENDING.infos.value[1..] == infos;
    assert l3.macros - {m3} == l.macros && l3.seen - {SHARPEN} == {VIDEO, SHADER};
  }

  /** Why the condition is about every beginning of the file and not about the final tables: a
    * second wrong removal can balance the first.  The tables end one-to-one, with VIDEO's macro
    * left over from a key and no macro for the info text of the first option. */
  lemma MendedByAccident(known: string -> bool)
    ensures var file := [Struct(Definition2, "_us", [CLASHING, MENDING])];
      OneToOne(GetTexts(file, known)) && !FileFresh(file, known)
  {
    var s, l := Struct(Definition2, "_us", [CLASHING, MENDING]), Lang(map[], {});
    var file := [s];
    assert file[..|file|-1] == [];
    assert LangOf(GetTexts([], known).value, "_us") == l;
    var m1, m2 := AfterClashing(l, known);
    var l1 := AddOption(l, Definition2, 0, CLASHING, known).value;
    AfterMending(l1, m1, m2, known);
    assert AddOptions(l, s, known, 1) == Some(l1);
    var t := Lang(l1.macros, {VIDEO, SHADER});
    assert AddOptions(l, s, known, 2) == Some(t);
    TextsDiffer();
    assert t.macros[m1] == VIDEO && t.macros[m2] == SHADER;
    assert Bijection(t);
    ClashingOptionFails(l, known);
    StructKeepsBijection(l, s, known, 2);
    assert !Corresponds(AddOptions(l, s, known, 1));
  }

  // ---------------------------------------------------------------- the parse itself

  /** The two dictionaries of get_texts, one record per language, filled in place. */
  class Texts {
    var langs: map<string, Lang>

    constructor ()
      ensures langs == map[]
    {
      langs := map[];
    }

    /** A text and its macro go in. */
    method Enter(lang: string, base: string, opt: nat, text: string) returns (h: string)
      requires lang in langs
      modifies this
      ensures h == NonDupe(base, opt, old(langs)[lang].macros.Keys)
      ensures langs == old(langs)[lang := AddText(old(langs)[lang], base, opt, text)]
    {
      var l := langs[lang];
      h := CreateNonDupe(base, opt, l.macros.Keys);
      langs := langs[lang := Lang(l.macros[h := text], l.seen + {text})];
    }

    method EnterIfNew(lang: string, base: string, opt: nat, text: string)
      requires lang in langs
      modifies this
      ensures langs == old(langs)[lang := AddIfNew(old(langs)[lang], base, opt, text)]
    {
      if Viable(text, langs[lang].seen) {
        var _ := Enter(lang, base, opt, text);
      }
    }

    method EnterInfos(lang: string, name: string, opt: nat, infos: seq<string>) returns (made: Option<string>)
      requires lang in langs
      modifies this
      ensures var (l, m) := AddInfos(old(langs)[lang], name, opt, infos, 0, None);
        made == m && langs == old(langs)[lang := l]
    {
      made := None;
      var j := 0;
      while j < |infos|
        invariant 0 <= j <= |infos| && lang in langs
        invariant langs == old(langs)[lang := langs[lang]]
        invariant AddInfos(langs[lang], name, opt, infos, j, made)
               == AddInfos(old(langs)[lang], name, opt, infos, 0, None)
      {
        if Viable(infos[j], langs[lang].seen) {
          var h := Enter(lang, InfoMacro(name, j), opt, infos[j]);
          made := Some(h);
        }
        j := j + 1;
      }
    }

    /** The infos of a version 2 definition, its category key taken out again; false is Python's
      * KeyError. */
    method EnterCategoryInfos(lang: string, name: string, opt: nat, infos: seq<string>) returns (ok: bool)
      requires lang in langs
      modifies this
      ensures ok == CategoryInfos(old(langs)[lang], name, opt, infos).Some?
      ensures lang in langs
      ensures ok ==> langs == old(langs)[lang := CategoryInfos(old(langs)[lang], name, opt, infos).value]
    {
      var made := EnterInfos(lang, name, opt, infos);
      var l := langs[lang];
      if infos != [] && infos[|infos|-1] in l.seen {
        if made.None? || made.value !in l.macros {
          return false;
        }
        langs := langs[lang := Lang(l.macros - {made.value}, l.seen - {infos[|infos|-1]})];
      }
      return true;
    }

    method EnterValue(lang: string, opt: nat, p: Pair, known: string -> bool)
      requires lang in langs
      modifies this
      ensures langs == old(langs)[lang := AddValue(old(langs)[lang], opt, p, known)]
    {
      var text := p.value;
      if !ViableValue(text) {
        text := p.key;
      }
      if Viable(text, langs[lang].seen) && !known(text) {
        var _ := Enter(lang, Collapse("OPTION_VAL_" + p.clean), opt, text);
      }
    }

    method EnterValues(lang: string, opt: nat, values: seq<Pair>, known: string -> bool)
      requires lang in langs
      modifies this
      ensures langs == old(langs)[lang := AddValues(old(langs)[lang], opt, values, known, 0)]
    {
      var j := 0;
      while j < |values|
        invariant 0 <= j <= |values| && lang in langs
        invariant langs == old(langs)[lang := langs[lang]]
        invariant AddValues(langs[lang], opt, values, known, j) == AddValues(old(langs)[lang], opt, values, known, 0)
      {
        EnterValue(lang, opt, values[j], known);
        j := j + 1;
      }
    }

    /** The additional texts of an option. */
    method EnterAllInfos(lang: string, kind: Kind, name: string, opt: nat, infos: seq<string>) returns (ok: bool)
      requires lang in langs
      modifies this
      ensures ok == AddAllInfos(old(langs)[lang], kind, name, opt, infos).Some?
      ensures ok ==> langs == old(langs)[lang := AddAllInfos(old(langs)[lang], kind, name, opt, infos).value]
    {
      if kind.Definition2? {
        if infos == [] {
          return false;
        }
        EnterIfNew(lang, Collapse(name + "_LABEL_CAT"), opt, infos[0]);
        ok := EnterCategoryInfos(lang, name, opt, infos[1..]);
      } else {
        var _ := EnterInfos(lang, name, opt, infos);
        ok := true;
      }
    }

    /** One option; false is an exception, and ends the parse. */
    method ParseOption(lang: string, kind: Kind, opt: nat, o: Parsed, known: string -> bool) returns (ok: bool)
      requires lang in langs
      modifies this
      ensures ok == AddOption(old(langs)[lang], kind, opt, o, known).Some?
      ensures ok ==> langs == old(langs)[lang := AddOption(old(langs)[lang], kind, opt, o, known).value]
    {
      if o.name.None? || o.desc.None? || o.infos.None? {
        return false;
      }
      var name := NameOf(kind, o.name.value);
      EnterIfNew(lang, Collapse(name + "_LABEL"), opt, o.desc.value);
      ok := EnterAllInfos(lang, kind, name, opt, o.infos.value);
      if ok {
        EnterValues(lang, opt, o.values, known);
      }
    }

    /** The next option of a struct that started from l. */
    method ParseNext(s: Struct, n: nat, known: string -> bool, ghost l: Lang) returns (ok: bool)
      requires s.lang in langs && n < |s.options| && AddOptions(l, s, known, n) == Some(langs[s.lang])
      modifies this
      ensures ok == AddOptions(l, s, known, n + 1).Some?
      ensures ok ==> langs == old(langs)[s.lang := AddOptions(l, s, known, n + 1).value]
    {
      ok := ParseOption(s.lang, s.kind, n, s.options[n], known);
    }

    method ParseStruct(s: Struct, known: string -> bool) returns (ok: bool)
      requires s.lang in langs
      modifies this
      ensures ok == AddOptions(old(langs)[s.lang], s, known, |s.options|).Some?
      ensures ok ==> langs == old(langs)[s.lang := AddOptions(old(langs)[s.lang], s, known, |s.options|).value]
    {
      ghost var l := langs[s.lang];
      for n := 0 to |s.options|
        invariant s.lang in langs && langs == old(langs)[s.lang := langs[s.lang]]
        invariant AddOptions(l, s, known, n) == Some(langs[s.lang])
      {
        ok := ParseNext(s, n, known, l);
        if !ok {
          AddOptionsStops(l, s, known, n + 1, |s.options|);
          return;
        }
      }
      return true;
    }

    /** get_texts. */
    method ParseFile(structs: seq<Struct>, known: string -> bool) returns (ok: bool)
      modifies this
      ensures ok == GetTexts(structs, known).Some?
      ensures ok ==> langs == GetTexts(structs, known).value
    {
      langs := map[];
      for n := 0 to |structs|
        invariant GetTexts(structs[..n], known) == Some(langs)
      {
        var s := structs[n];
        assert structs[..n + 1][..n] == structs[..n];
        ghost var before := langs;
        if s.lang !in langs {
          langs := langs[s.lang := Lang(map[], {})];
        }
        ok := ParseStruct(s, known);
        if !ok {
          GetTextsStops(structs, known, n + 1);
          return;
        }
        assert langs == before[s.lang := langs[s.lang]];
      }
      assert structs[..|structs|] == structs;
      return true;
    }
  }

  lemma {:induction false} AddOptionsStops(l: Lang, s: Struct, known: string -> bool, n: nat, k: nat)
    requires n <= k <= |s.options| && AddOptions(l, s, known, n).None?
    ensures AddOptions(l, s, known, k).None?
    decreases k - n
  {
    if n < k {
      AddOptionsStops(l, s, known, n, k - 1);
    }
  }

  lemma {:induction false} GetTextsStops(structs: seq<Struct>, known: string -> bool, n: nat)
    requires n <= |structs| && GetTexts(structs[..n], known).None?
    ensures GetTexts(structs, known).None?
    decreases |structs| - n
  {
    if n < |structs| {
      assert structs[..n + 1][..n] == structs[..n];
      GetTextsStops(structs, known, n + 1);
    } else {
      assert structs[..n] == structs;
    }
  }
}
