/** JSON text. */
module JsonText {
  // The compact JSON text of `JSON.stringify` and of serde_json.

  import opened Text
  import opened Json
  import opened Numerals

  // ------------------------------------------------------------ printing

  function HexDigit(d: nat): (c: char)
    requires d < 16
  {
    if d < 10 then '0' + d as char else 'a' + (d - 10) as char
  }

  function EscapeChar(c: char): (s: string)
    ensures s != "" && s[0] != '"'
  {
    if c == '"' then "\\\""
    else if c == '\\' then "\\\\"
    else if c as int == 8 then "\\b"
    else if c as int == 12 then "\\f"
    else if c == '\n' then "\\n"
    else if c == '\r' then "\\r"
    else if c == '\t' then "\\t"
    else if c as int < 0x20 then "\\u00" + [HexDigit(c as int / 16), HexDigit(c as int % 16)]
    else [c]
  }

  function Escape(s: string): string {
    if s == "" then "" else EscapeChar(s[0]) + Escape(s[1..])
  }

  function Quoted(s: string): string { "\"" + Escape(s) + "\"" }

  /** `JSON.stringify`, which is also serde_json's compact form: `undefined`
      members are left out, and `undefined` items and numbers that are not finite
      are null. */
  function Stringify(v: Json): string
    decreases v, 1
  {
    match v
    case Undefined => "null"
    case Null => "null"
    case Bool(b) => if b then "true" else "false"
    case Int(n) => IntText(n)
    case Real(literal) => if IsNumeral(literal) then literal else "null"
    case Str(s) => Quoted(s)
    case Arr(items) => "[" + ItemsText(items, true)
    case Obj(fields) => "{" + FieldsText(fields, true)
  }

  function ItemsText(items: seq<Json>, first: bool): string
    decreases items, 0
  {
    if items == [] then "]"
    else (if first then "" else ",") + Stringify(items[0]) + ItemsText(items[1..], false)
  }

  function FieldsText(fields: seq<Field>, first: bool): string
    decreases fields, 0
  {
    if fields == [] then "}"
    else if fields[0].value.Undefined? then FieldsText(fields[1..], first)
    else (if first then "" else ",") + Quoted(fields[0].key) + ":" + Stringify(fields[0].value)
         + FieldsText(fields[1..], false)
  }

  // -------------------------------------------------------------- plain values

  /** A value that JSON can carry exactly: no `undefined`, and only finite numbers. */
  predicate Plain(v: Json) {
    match v
    case Undefined => false
    case Real(literal) => IsNumeral(literal)
    case Arr(items) => forall i :: 0 <= i < |items| ==> Plain(items[i])
    case Obj(fields) => forall i :: 0 <= i < |fields| ==> Plain(fields[i].value)
    case _ => true
  }

  lemma PlainKinds(v: Json)
    requires Plain(v)
    ensures !v.Undefined?
  {}

  lemma PlainItems(v: Json)
    requires Plain(v)
    ensures v.Arr? ==> forall i :: 0 <= i < |v.items| ==> Plain(v.items[i])
    ensures v.Obj? ==> forall i :: 0 <= i < |v.fields| ==> Plain(v.fields[i].value)
  {}
}
