/** The indentation-based printer: `serialize`, `emitKeyed` and `toYaml`. */
module YamlPrinter {
  import opened Text
  import opened Json
  import opened YamlScalar

  /** A line of YAML: its column and its text from there on. The parser's
      `Line` is the same pair, with columns that may become negative. */
  datatype Line = Line(indent: int, content: string)

  function Render(l: Line): string {
    Spaces(if l.indent < 0 then 0 else l.indent) + l.content
  }

  function RenderAll(ls: seq<Line>): seq<string> {
    if ls == [] then [] else [Render(ls[0])] + RenderAll(ls[1..])
  }

  /** The lines of one `key: child` pair whose first line starts, at column
      `col`, with `head` (empty, or the dash of a sequence item). */
  function Keyed(head: string, col: nat, key: string, child: Json, childIndent: nat): seq<Line>
    decreases child, 2
  {
    var k := head + FormatText(key);
    if child.Arr? then
      if child.items == [] then [Line(col, k + ": []")]
      else [Line(col, k + ":")] + Block(child, childIndent)
    else if child.Obj? then
      if child.fields == [] then [Line(col, k + ": {}")]
      else [Line(col, k + ":")] + Block(child, childIndent + 1)
    else [Line(col, k + ": " + FormatScalar(child))]
  }

  /** The lines of a value printed as a block at an indentation level. */
  function Block(value: Json, indent: nat): seq<Line>
    decreases value, 1
  {
    if value.Arr? then Items(value.items, indent)
    else if value.Obj? then Fields(value.fields, indent)
    else []
  }

  function Fields(fields: seq<Field>, indent: nat): seq<Line>
    decreases fields, 0
  {
    if fields == [] then []
    else Keyed("", 2 * indent, fields[0].key, fields[0].value, indent)
         + Fields(fields[1..], indent)
  }

  function Items(items: seq<Json>, indent: nat): seq<Line>
    decreases items, 0
  {
    if items == [] then [] else Item(items[0], indent) + Items(items[1..], indent)
  }

  function Item(item: Json, indent: nat): seq<Line>
    decreases item, 3
  {
    if item.Obj? then
      if item.fields == [] then [Line(2 * indent, "- {}")]
      else Keyed("- ", 2 * indent, item.fields[0].key, item.fields[0].value, indent + 1)
           + Fields(item.fields[1..], indent + 1)
    else if item.Arr? then [Line(2 * indent, "-")] + Block(item, indent + 1)
    else [Line(2 * indent, "- " + FormatScalar(item))]
  }

  function ToYaml(value: Json): string { JoinLines(RenderAll(Block(value, 0))) + "\n" }

  lemma {:induction false} RenderAllConcat(a: seq<Line>, b: seq<Line>)
    ensures RenderAll(a + b) == RenderAll(a) + RenderAll(b)
  {
    if a == [] {
      assert a + b == b;
    } else {
      assert (a + b)[0] == a[0] && (a + b)[1..] == a[1..] + b;
      RenderAllConcat(a[1..], b);
    }
  }

  lemma {:induction false} FieldsConcat(a: seq<Field>, b: seq<Field>, indent: nat)
    ensures Fields(a + b, indent) == Fields(a, indent) + Fields(b, indent)
  {
    if a == [] {
      assert a + b == b;
    } else {
      assert (a + b)[1..] == a[1..] + b;
      FieldsConcat(a[1..], b, indent);
    }
  }

  lemma {:induction false} ItemsConcat(a: seq<Json>, b: seq<Json>, indent: nat)
    ensures Items(a + b, indent) == Items(a, indent) + Items(b, indent)
  {
    if a == [] {
      assert a + b == b;
    } else {
      assert (a + b)[1..] == a[1..] + b;
      ItemsConcat(a[1..], b, indent);
    }
  }

  lemma FieldsSnoc(before: seq<string>, fields: seq<Field>, i: nat, indent: nat)
    requires i < |fields|
    ensures before + RenderAll(Fields(fields[..i + 1], indent))
            == before + RenderAll(Fields(fields[..i], indent))
               + RenderAll(Keyed("", 2 * indent, fields[i].key, fields[i].value, indent))
  {
    var more := Keyed("", 2 * indent, fields[i].key, fields[i].value, indent);
    assert fields[..i + 1] == fields[..i] + [fields[i]];
    FieldsConcat(fields[..i], [fields[i]], indent);
    assert Fields([fields[i]], indent) == more + [] == more;
    RenderAllConcat(Fields(fields[..i], indent), more);
  }

  lemma ItemsSnoc(before: seq<string>, items: seq<Json>, i: nat, indent: nat)
    requires i < |items|
    ensures before + RenderAll(Items(items[..i + 1], indent))
            == before + RenderAll(Items(items[..i], indent)) + RenderAll(Item(items[i], indent))
  {
    assert items[..i + 1] == items[..i] + [items[i]];
    ItemsConcat(items[..i], [items[i]], indent);
    assert Items([items[i]], indent) == Item(items[i], indent) + [] == Item(items[i], indent);
    RenderAllConcat(Items(items[..i], indent), Item(items[i], indent));
  }

  lemma RenderHeaded(prefix: string, col: nat, head: string, text: string)
    requires prefix == Spaces(col) + head
    ensures prefix + text == Spaces(col) + (head + text)
  {}

  /** The shared `lines` array and the recursive methods that push onto it. */
  class Printer {
    var lines: seq<string>

    constructor ()
      ensures lines == []
    {
      lines := [];
    }

    method Push(text: string, ghost col: nat, ghost content: string)
      requires text == Spaces(col) + content
      modifies this
      ensures lines == old(lines) + RenderAll([Line(col, content)])
    {
      assert RenderAll([]) == [];
      lines := lines + [text];
    }

    method Serialize(value: Json, indent: nat)
      modifies this
      ensures lines == old(lines) + RenderAll(Block(value, indent))
      decreases value, 1
    {
      if value.Arr? {
        SerializeItems(value.items, indent);
      } else if value.Obj? {
        SerializeFields(value.fields, indent);
      }
    }

    method SerializeItems(items: seq<Json>, indent: nat)
      modifies this
      ensures lines == old(lines) + RenderAll(Items(items, indent))
      decreases items, 0
    {
      for i := 0 to |items|
        invariant lines == old(lines) + RenderAll(Items(items[..i], indent))
      {
        SerializeItem(items[i], indent);
        ItemsSnoc(old(lines), items, i, indent);
      }
      assert items[..|items|] == items;
    }

    method SerializeItem(item: Json, indent: nat)
      modifies this
      ensures lines == old(lines) + RenderAll(Item(item, indent))
      decreases item, 3
    {
      var pad := Spaces(2 * indent);
      if item.Obj? {
        if item.fields == [] {
          Push(pad + "- {}", 2 * indent, "- {}");
        } else {
          SerializeItemFields(item.fields, indent, pad);
        }
      } else if item.Arr? {
        Push(pad + "-", 2 * indent, "-");
        Serialize(item, indent + 1);
        RenderAllConcat([Line(2 * indent, "-")], Block(item, indent + 1));
      } else {
        RenderHeaded(pad + "- ", 2 * indent, "- ", FormatScalar(item));
        Push(pad + "- " + FormatScalar(item), 2 * indent, "- " + FormatScalar(item));
      }
    }

    /** An object as a sequence item: the dash stands before its first key. */
    method SerializeItemFields(fields: seq<Field>, indent: nat, pad: string)
      requires fields != [] && pad == Spaces(2 * indent)
      modifies this
      ensures lines == old(lines)
        + RenderAll(Keyed("- ", 2 * indent, fields[0].key, fields[0].value, indent + 1)
                    + Fields(fields[1..], indent + 1))
      decreases fields, 1
    {
      hide Keyed, Fields, RenderAll, Spaces;
      var f := fields[0];
      ghost var first := Keyed("- ", 2 * indent, f.key, f.value, indent + 1);
      EmitKeyed(pad + "- ", "- ", 2 * indent, f.key, f.value, indent + 1);
      SerializeFields(fields[1..], indent + 1);
      RenderAllConcat(first, Fields(fields[1..], indent + 1));
    }

    /** Every key on its own indented line. */
    method SerializeFields(fields: seq<Field>, indent: nat)
      modifies this
      ensures lines == old(lines) + RenderAll(Fields(fields, indent))
      decreases fields, 0
    {
      var pad := Spaces(2 * indent);
      assert pad == pad + "";
      for i := 0 to |fields|
        invariant lines == old(lines) + RenderAll(Fields(fields[..i], indent))
      {
        EmitKeyed(pad, "", 2 * indent, fields[i].key, fields[i].value, indent);
        FieldsSnoc(old(lines), fields, i, indent);
      }
      assert fields[..|fields|] == fields;
    }

    method EmitKeyed(prefix: string, ghost head: string, ghost col: nat,
                     key: string, child: Json, childIndent: nat)
      requires prefix == Spaces(col) + head
      modifies this
      ensures lines == old(lines) + RenderAll(Keyed(head, col, key, child, childIndent))
      decreases child, 3
    {
      var k := FormatText(key);
      RenderHeaded(prefix, col, head, k);
      if child.Arr? {
        if child.items == [] {
          RenderHeaded(prefix + k, col, head + k, ": []");
          Push(prefix + k + ": []", col, head + k + ": []");
        } else {
          EmitNested(prefix + k, head + k, col, child, childIndent);
        }
      } else if child.Obj? {
        if child.fields == [] {
          RenderHeaded(prefix + k, col, head + k, ": {}");
          Push(prefix + k + ": {}", col, head + k + ": {}");
        } else {
          EmitNested(prefix + k, head + k, col, child, childIndent + 1);
        }
      } else {
        var t := FormatScalar(child);
        RenderHeaded(prefix + k, col, head + k, ": ");
        RenderHeaded(prefix + k + ": ", col, head + k + ": ", t);
        Push(prefix + k + ": " + t, col, head + k + ": " + t);
      }
    }

    /** A key alone on its line, with its block below. */
    method EmitNested(text: string, ghost k: string, ghost col: nat, child: Json, indent: nat)
      requires text == Spaces(col) + k
      modifies this
      ensures lines == old(lines) + RenderAll([Line(col, k + ":")] + Block(child, indent))
      decreases child, 2
    {
      RenderHeaded(text, col, k, ":");
      Push(text + ":", col, k + ":");
      Serialize(child, indent);
      RenderAllConcat([Line(col, k + ":")], Block(child, indent));
    }
  }

  method PrintYaml(value: Json) returns (text: string)
    ensures text == ToYaml(value)
  {
    var p := new Printer();
    p.Serialize(value, 0);
    assert [] + RenderAll(Block(value, 0)) == RenderAll(Block(value, 0));
    text := JoinLines(p.lines) + "\n";
  }
}
