/** What both approval gates use of Python: `dict.get` on a field, non-blank texts, and UTC time stamps. */
module Timestamps {
  import opened PyText
  import opened Json

  /** The clock, and `datetime.fromisoformat` of a text before its final Z. */
  datatype Clock = Clock(now: int, iso: string -> Option<int>)

  /** A text that is more than white space. */
  predicate NonBlank(v: Option<Json>) {
    v.Some? && v.value.Str? && Strip(v.value.s) != []
  }

  /** `value is None` */
  predicate IsNone(v: Option<Json>) {
    v.None? || v.value.Null?
  }

  predicate IsObject(v: Option<Json>) {
    v.Some? && v.value.Obj?
  }

  predicate IsList(v: Option<Json>) {
    v.Some? && v.value.Arr?
  }

  predicate HasTexts(v: Json, fields: seq<string>) {
    forall i :: 0 <= i < |fields| ==> NonBlank(Field(v, fields[i]))
  }

  function Instant(s: string, clock: Clock): Option<int> {
    if s != [] && s[|s| - 1] == 'Z' then clock.iso(s[..|s| - 1]) else None
  }
}
