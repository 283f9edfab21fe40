/** Core option definitions as the frontend sees them (libretro_core_options.h, and the lookups
  * over option_defs_us in libretro.c). */
module OptionTable {
  import opened Common

  datatype Value = Value(value: string, caption: Option<string>)

  datatype Def = Def(key: string, desc: string, info: Option<string>, infoCategorized: Option<string>,
                     values: seq<Value>)

  /** Index of the first definition with the key, |defs| when there is none. */
  function Find(defs: seq<Def>, key: string): (i: nat)
    ensures i <= |defs|
    ensures i < |defs| ==> defs[i].key == key
    ensures forall j :: 0 <= j < i ==> defs[j].key != key
  {
    if defs == [] then 0 else if defs[0].key == key then 0 else 1 + Find(defs[1..], key)
  }

  /** snprintf into a buffer of `size` characters. */
  function Clip(s: string, size: nat): (r: string)
    requires size > 0
    ensures |r| < size && r <= s && (|s| < size ==> r == s) && (|s| >= size ==> |r| == size - 1)
  {
    if |s| < size then s else s[..size - 1]
  }

  /** Human text for a value: its label, else on/off, else the raw value. */
  function ValueText(values: seq<Value>, value: string): string {
    if values != [] && values[0].value != value then ValueText(values[1..], value)
    else if values != [] && values[0].caption.Some? then values[0].caption.value
    else if value == "enabled" then "on"
    else if value == "disabled" then "off"
    else value
  }

  /** At the first entry with the value, if there is one. */
  lemma {:induction false} ValueTextMeans(values: seq<Value>, value: string, i: nat)
    requires i <= |values| && forall j :: 0 <= j < i ==> values[j].value != value
    requires i < |values| ==> values[i].value == value
    ensures var labelled := i < |values| && values[i].caption.Some?;
      && (labelled ==> ValueText(values, value) == values[i].caption.value)
      && (!labelled ==>
            var plain := if value == "enabled" then "on" else if value == "disabled" then "off" else value;
            ValueText(values, value) == plain)
  {
    if i > 0 {
      ValueTextMeans(values[1..], value, i - 1);
    }
  }
}
