/**
 * The field editors of a data entry (fields/util.tsx, fields/selectField.tsx):
 * key normalisation and commit, the label edit, and a select field's
 * options and default-value display.
 */
module IOFields {

  import opened Wrappers
  import opened JsonValues
  import Seqs
  import opened IOForms
  import CreateIOModal

  // ---- key normalisation (util.tsx 29-35) ----

  /** The characters JavaScript's `\s` matches. */
  predicate IsJsSpace(c: char)
  {
    c in {' ', '\t', '\n', '\U{B}', '\U{C}', '\r', '\U{A0}', '\U{1680}', '\U{2028}', '\U{2029}',
          '\U{202F}', '\U{205F}', '\U{3000}', '\U{FEFF}'}
    || ('\U{2000}' <= c <= '\U{200A}')
  }

  /** What a key may be made of once normalised. */
  predicate KeyChar(c: char)
  {
    ('a' <= c <= 'z') || ('0' <= c <= '9') || c == '-'
  }

  /**
   * One character through lower-casing, `\s|_` to `-`, and the removal of
   * anything outside `[A-Za-z0-9_-]`.
   */
  function NormChar(c: char): (r: Option<char>)
    ensures r.Some? ==> KeyChar(r.value)
    ensures KeyChar(c) ==> r == Some(c)
    ensures 'A' <= c <= 'Z' ==> r == Some((c as int + 32) as char)
    ensures IsJsSpace(c) || c == '_' ==> r == Some('-')
  {
    if 'A' <= c <= 'Z' then Some((c as int + 32) as char)
    else if IsJsSpace(c) || c == '_' then Some('-')
    else if KeyChar(c) then Some(c)
    else None
  }

  function NormKey(text: string): (r: string)
    ensures |r| <= |text|
    ensures forall i | 0 <= i < |r| :: KeyChar(r[i])
  {
    if |text| == 0 then ""
    else (if NormChar(text[0]).Some? then [NormChar(text[0]).value] else []) + NormKey(text[1..])
  }

  /** A key made only of key characters passes through unchanged. */
  lemma {:induction false} NormKeyFixed(text: string)
    requires forall i | 0 <= i < |text| :: KeyChar(text[i])
    ensures NormKey(text) == text
  {
    if |text| > 0 {
      NormKeyFixed(text[1..]);
    }
  }

  /** Normalising twice is normalising once. */
  lemma NormKeyIdempotent(text: string)
    ensures NormKey(NormKey(text)) == NormKey(text)
  {
    NormKeyFixed(NormKey(text));
  }

  /** Typing never lengthens the text, and drops only characters with no key form. */
  lemma {:induction false} NormKeyDropsOnly(text: string)
    ensures |NormKey(text)| == |text| - |Seqs.Keep(text, (c: char) => NormChar(c).None?)|
  {
    if |text| > 0 {
      NormKeyDropsOnly(text[1..]);
    }
  }

  // ---- key commit and label edit (util.tsx 40-55) ----

  function Keys(fields: seq<Json>): (r: seq<Json>)
    ensures |r| == |fields| && forall i | 0 <= i < |fields| :: r[i] == Member(fields[i], "key")
  {
    if |fields| == 0 then [] else [Member(fields[0], "key")] + Keys(fields[1..])
  }

  /** The commit button is disabled iff the key is unchanged or already some field's key. */
  predicate CommitDisabled(key: string, field: Obj, fields: seq<Json>)
  {
    JStr(key) == Member(JObj(field), "key") || JStr(key) in Keys(fields)
  }

  /** Committing writes the key into the field and nothing else. */
  function CommitKey(field: Obj, key: string): (r: Obj)
    ensures Member(JObj(r), "key") == JStr(key)
    ensures forall k | k != "key" :: (k in r <==> k in field) && (k in r ==> r[k] == field[k])
  {
    SetState(field, map["key" := JStr(key)])
  }

  /** Once committed, the same key cannot be committed again. */
  lemma CommitThenDisabled(field: Obj, key: string, fields: seq<Json>)
    ensures CommitDisabled(key, CommitKey(field, key), fields)
  {
  }

  predicate DistinctKeys(fields: seq<Json>)
  {
    forall i, j | 0 <= i < j < |fields| :: Member(fields[i], "key") != Member(fields[j], "key")
  }

  /** An enabled commit on one of the entry's fields keeps the field keys distinct. */
  lemma CommitKeepsKeysDistinct(extra: Obj, index: nat, key: string)
    requires index < |FieldsOf(extra)| && FieldsOf(extra)[index].JObj?
    requires DistinctKeys(FieldsOf(extra))
    requires !CommitDisabled(key, FieldsOf(extra)[index].fields, FieldsOf(extra))
    ensures DistinctKeys(FieldsOf(CreateIOModal.UpdateField(extra, index, map["key" := JStr(key)])))
  {
    var fields := FieldsOf(extra);
    var after := FieldsOf(CreateIOModal.UpdateField(extra, index, map["key" := JStr(key)]));
    assert Member(after[index], "key") == JStr(key);
    forall i | 0 <= i < |fields| && i != index
      ensures Member(after[i], "key") != JStr(key)
    {
      assert Keys(fields)[i] == Member(fields[i], "key");
    }
  }

  /** The label input shows `label ?? ""` and stores the raw text. */
  function SetFieldLabel(field: Obj, text: string): (r: Obj)
    ensures Coalesce(Member(JObj(r), "label"), JStr("")) == JStr(text)
    ensures forall k | k != "label" :: (k in r <==> k in field) && (k in r ==> r[k] == field[k])
  {
    SetState(field, map["label" := JStr(text)])
  }

  // ---- select options (selectField.tsx 89-237) ----

  /** An option: a bare string, or a label and a value. */
  datatype SelectOption = OptStr(s: string) | OptPair(labelText: string, value: string)

  function OptionValue(o: SelectOption): string
  {
    if o.OptStr? then o.s else o.value
  }

  function OptionLabel(o: SelectOption): string
  {
    if o.OptStr? then o.s else o.labelText
  }

  function Values(options: seq<SelectOption>): (r: seq<string>)
    ensures |r| == |options| && forall i | 0 <= i < |options| :: r[i] == OptionValue(options[i])
  {
    if |options| == 0 then [] else [OptionValue(options[0])] + Values(options[1..])
  }

  /** The create button is disabled iff the value is empty or already an option's value. */
  predicate AddDisabled(options: seq<SelectOption>, value: string)
  {
    |value| == 0 || value in Values(options)
  }

  /** A new option: labelled only when a label was typed. */
  function AddOption(options: seq<SelectOption>, labelText: string, value: string): (r: seq<SelectOption>)
    ensures |r| == |options| + 1 && r[..|options|] == options
    ensures OptionValue(r[|options|]) == value
    ensures OptionLabel(r[|options|]) == if |labelText| > 0 then labelText else value
  {
    options + [if |labelText| > 0 then OptPair(labelText, value) else OptStr(value)]
  }

  /** Removing an option drops every option with its value. */
  function RemoveOption(options: seq<SelectOption>, value: string): (r: seq<SelectOption>)
    ensures forall o :: o in r <==> o in options && OptionValue(o) != value
  {
    Seqs.Keep(options, (o: SelectOption) => OptionValue(o) != value)
  }

  predicate DistinctValues(options: seq<SelectOption>)
  {
    forall i, j | 0 <= i < j < |options| :: OptionValue(options[i]) != OptionValue(options[j])
  }

  /** An enabled add keeps option values distinct. */
  lemma AddKeepsDistinct(options: seq<SelectOption>, labelText: string, value: string)
    requires DistinctValues(options) && !AddDisabled(options, value)
    ensures DistinctValues(AddOption(options, labelText, value))
  {
    var r := AddOption(options, labelText, value);
    forall i | 0 <= i < |options|
      ensures OptionValue(r[i]) != value
    {
      assert Values(options)[i] == OptionValue(options[i]);
    }
  }

  /** Removing an option just added gives back the earlier options. */
  lemma RemoveAfterAdd(options: seq<SelectOption>, labelText: string, value: string)
    requires !AddDisabled(options, value)
    ensures RemoveOption(AddOption(options, labelText, value), value) == options
  {
    var p := (o: SelectOption) => OptionValue(o) != value;
    var added := if |labelText| > 0 then OptPair(labelText, value) else OptStr(value);
    assert AddOption(options, labelText, value) == options + [added];
    Seqs.KeepAppend(options, [added], p);
    forall i | 0 <= i < |options|
      ensures p(options[i])
    {
      assert Values(options)[i] == OptionValue(options[i]);
    }
    Seqs.KeepEvery(options, p);
    assert Seqs.Keep([added], p) == [];
  }

  // ---- default value display (56-79, 258-282) ----

  /** The multi-select value: falsy is none, a string is one, anything else as given. */
  function MultiDisplay(d: Json): (r: Json)
    ensures !Truthy(d) ==> r == JArr([])
    ensures d.JStr? && Truthy(d) ==> r == JArr([d])
    ensures d.JArr? ==> r == d
  {
    if !Truthy(d) then JArr([]) else if d.JStr? then JArr([d]) else d
  }

  /** The single-select value: falsy is null, a string as given, otherwise the first element or null. */
  function SingleDisplay(d: Json): (r: Json)
    ensures !Truthy(d) ==> r == JNull
    ensures d.JStr? && Truthy(d) ==> r == d
    ensures d.JArr? && |d.items| > 0 ==> r == Coalesce(d.items[0], JNull)
    ensures d.JArr? && |d.items| == 0 ==> r == JNull
  {
    if !Truthy(d) then JNull
    else if d.JStr? then d
    else Coalesce(if d.JArr? && |d.items| > 0 then d.items[0] else JUndefined, JNull)
  }

  /** Switching a field from multiple to single shows the same default. */
  lemma SingleOfMulti(d: Json)
    ensures SingleDisplay(MultiDisplay(d)) == SingleDisplay(d)
  {
  }

  /** The multiple switch stores the negation of the current setting. */
  function ToggleMultiple(field: Obj): (r: Obj)
    ensures Truthy(Member(JObj(r), "multiple")) <==> !Truthy(Member(JObj(field), "multiple"))
    ensures forall k | k != "multiple" :: (k in r <==> k in field) && (k in r ==> r[k] == field[k])
  {
    SetState(field, map["multiple" := JBool(!Truthy(Member(JObj(field), "multiple")))])
  }

  /** Toggling twice restores a boolean setting. */
  lemma ToggleTwice(field: Obj)
    requires "multiple" in field && field["multiple"].JBool?
    ensures ToggleMultiple(ToggleMultiple(field)) == field
  {
  }
}
