/** The declaration generator (src/generator.ts): the type-mapping table, the
    column type resolution, and the text of enum unions, table interfaces, the
    knex `Tables` registry and the whole generated file.

    Each text producer is paired with a line model (`...Lines`): a lemma shows
    the text is exactly those lines joined by newlines, and when no name,
    comment or default contains a newline, splitting the file on newlines gives
    the line model back. */
module Generator {
  import opened Types
  import opened Text
  import Introspector

  /** Catalog type tag to TypeScript type (`pgToTsTypeMap`); `None` for a tag
      the table has no entry for. 64-bit integers, `numeric` and `money`
      become `string` so that no precision is lost. Every entry is one of
      the TypeScript types in `TsTypes`. */
  function TableType(tag: string): (r: Option<string>)
    ensures r.Some? ==> r.value in TsTypes
  {
    // numeric types
    if tag == "int2" then Some("number")
    else if tag == "int4" then Some("number")
    else if tag == "int8" then Some("string")
    else if tag == "float4" then Some("number")
    else if tag == "float8" then Some("number")
    else if tag == "numeric" then Some("string")
    else if tag == "money" then Some("string")
    // character types
    else if tag == "varchar" then Some("string")
    else if tag == "char" then Some("string")
    else if tag == "text" then Some("string")
    else if tag == "citext" then Some("string")
    else if tag == "uuid" then Some("string")
    // boolean
    else if tag == "bool" then Some("boolean")
    // date and time
    else if tag == "timestamp" then Some("Date")
    else if tag == "timestamptz" then Some("Date")
    else if tag == "date" then Some("Date")
    else if tag == "time" then Some("string")
    else if tag == "timetz" then Some("string")
    else if tag == "interval" then Some("string")
    // JSON payloads stay opaque
    else if tag == "json" then Some("unknown")
    else if tag == "jsonb" then Some("unknown")
    // network addresses
    else if tag == "inet" then Some("string")
    else if tag == "cidr" then Some("string")
    else if tag == "macaddr" then Some("string")
    else if tag == "macaddr8" then Some("string")
    // geometry
    else if tag == "point" then Some("string")
    else if tag == "line" then Some("string")
    else if tag == "lseg" then Some("string")
    else if tag == "box" then Some("string")
    else if tag == "path" then Some("string")
    else if tag == "polygon" then Some("string")
    else if tag == "circle" then Some("string")
    // one-dimensional arrays
    else if tag == "_int2" then Some("number[]")
    else if tag == "_int4" then Some("number[]")
    else if tag == "_int8" then Some("string[]")
    else if tag == "_float4" then Some("number[]")
    else if tag == "_float8" then Some("number[]")
    else if tag == "_numeric" then Some("string[]")
    else if tag == "_money" then Some("string[]")
    else if tag == "_varchar" then Some("string[]")
    else if tag == "_char" then Some("string[]")
    else if tag == "_text" then Some("string[]")
    else if tag == "_uuid" then Some("string[]")
    else if tag == "_bool" then Some("boolean[]")
    else if tag == "_json" then Some("unknown[]")
    else if tag == "_jsonb" then Some("unknown[]")
    else None
  }

  /** The fallback for a tag that is neither an enum nor in the table. */
  const Unknown: string := "unknown"

  /** Every TypeScript type the table or the fallback can produce. */
  const TsTypes: set<string> :=
    {"number", "string", "boolean", "Date", "unknown",
     "number[]", "string[]", "boolean[]", "unknown[]"}

  const NullSuffix: string := " | null"

  // ---------------------------------------------------------------------------
  // Column types (getTypeScriptType)

  /** The column's type before nullability: an enum name refers to the
      generated enum type and wins over the table. Resolution never fails:
      the result is the column's own enum type name, or (for a non-enum tag) a
      vocabulary type. */
  function BaseType(col: DatabaseColumn, enumNames: set<string>): (r: string)
    ensures col.columnType in enumNames ==> r == col.columnType
    ensures col.columnType !in enumNames ==> r in TsTypes
  {
    if col.columnType in enumNames then col.columnType
    else if TableType(col.columnType).Some? then TableType(col.columnType).value
    else Unknown
  }

  /** `getTypeScriptType`: the base type, with `| null` for a nullable column.
      The type ends in ` | null` exactly when the column is nullable, unless
      the column's enum name itself ends that way. */
  function TypeScriptType(col: DatabaseColumn, enumNames: set<string>): (r: string)
    ensures HasNullSuffix(r) <==> col.isNullable || (col.columnType in enumNames && HasNullSuffix(col.columnType))
  {
    var base := BaseType(col, enumNames);
    TsTypesHaveNoNullSuffix();
    if col.isNullable then (SuffixedHasNullSuffix(base); base + NullSuffix) else base
  }

  /** Appending the suffix makes it the suffix. */
  lemma SuffixedHasNullSuffix(base: string)
    ensures HasNullSuffix(base + NullSuffix)
  {
    var t := base + NullSuffix;
    assert t[|t| - |NullSuffix|..] == NullSuffix;
  }

  predicate HasNullSuffix(t: string)
  {
    |t| >= |NullSuffix| && t[|t| - |NullSuffix|..] == NullSuffix
  }

  /** Reads a generated field type back as its base type and nullability. */
  function SplitNullable(t: string): (string, bool)
  {
    if HasNullSuffix(t) then (t[..|t| - |NullSuffix|], true) else (t, false)
  }

  /** A type whose last character differs from that of ` | null` (or that is
      shorter) cannot carry the suffix. */
  lemma NoNullSuffix(t: string)
    requires |t| < |NullSuffix| || t[|t| - 1] != 'l'
    ensures !HasNullSuffix(t)
  {
    if |t| >= |NullSuffix| {
      assert t[|t| - |NullSuffix|..][|NullSuffix| - 1] == t[|t| - 1];
    }
  }

  /** No vocabulary type already carries the null suffix. */
  lemma TsTypesHaveNoNullSuffix()
    ensures forall t | t in TsTypes :: !HasNullSuffix(t)
  {
    NoNullSuffix("number");
    NoNullSuffix("string");
    NoNullSuffix("boolean");
    NoNullSuffix("Date");
    NoNullSuffix("unknown");
    NoNullSuffix("number[]");
    NoNullSuffix("string[]");
    NoNullSuffix("boolean[]");
    NoNullSuffix("unknown[]");
  }

  /** An enum name wins even where it is also a key of the table: an enum
      named `text` yields `text`, not `string`. */
  lemma EnumNameShadowsTable(col: DatabaseColumn, enumNames: set<string>)
    requires col.columnType in enumNames && TableType(col.columnType).Some?
    ensures BaseType(col, enumNames) == col.columnType
    ensures BaseType(col, enumNames) != TableType(col.columnType).value
  {
  }

  /** A tag neither in the enum set nor in the table becomes `unknown`. */
  lemma UnmappedIsUnknown(col: DatabaseColumn, enumNames: set<string>)
    requires col.columnType !in enumNames && TableType(col.columnType).None?
    ensures TypeScriptType(col, enumNames) == if col.isNullable then "unknown | null" else "unknown"
  {
  }

  /** The precision-loss policy: 64-bit integers, decimals and money are
      strings; 16- and 32-bit integers are numbers; arrays follow suit. */
  lemma PrecisionPolicy(col: DatabaseColumn, enumNames: set<string>)
    requires col.columnType !in enumNames
    ensures col.columnType in {"int8", "numeric", "money"} ==> BaseType(col, enumNames) == "string"
    ensures col.columnType in {"int2", "int4"} ==> BaseType(col, enumNames) == "number"
    ensures col.columnType in {"_int8", "_numeric", "_money"} ==> BaseType(col, enumNames) == "string[]"
    ensures col.columnType in {"_int2", "_int4"} ==> BaseType(col, enumNames) == "number[]"
  {
  }

  /** Nullability is exactly a suffix: the generated type reads back as the
      base type and the column's nullability (an enum whose own name ends in
      ` | null` is the one ambiguous case). */
  lemma NullabilityRoundTrip(col: DatabaseColumn, enumNames: set<string>)
    requires col.columnType in enumNames ==> !HasNullSuffix(col.columnType)
    ensures SplitNullable(TypeScriptType(col, enumNames)) == (BaseType(col, enumNames), col.isNullable)
  {
    TsTypesHaveNoNullSuffix();
    var base := BaseType(col, enumNames);
    if col.isNullable {
      var t := base + NullSuffix;
      assert t[|t| - |NullSuffix|..] == NullSuffix;
      assert t[..|t| - |NullSuffix|] == base;
    }
  }

  // ---------------------------------------------------------------------------
  // Table interfaces (generateTableInterface)

  /** The comment line is printed only for a present, non-empty comment
      (JavaScript truthiness). */
  predicate HasComment(col: DatabaseColumn)
  {
    col.comment.Some? && col.comment.value != ""
  }

  /** The `@default` text: `null` for a null default, else the text verbatim. */
  function DefaultText(col: DatabaseColumn): string
  {
    match col.defaultValue
    case None => "null"
    case Some(d) => d
  }

  function CommentLine(col: DatabaseColumn): string
    requires col.comment.Some?
  {
    "   * " + col.comment.value
  }

  function DefaultLine(col: DatabaseColumn): string
  {
    "   * @default " + DefaultText(col)
  }

  function DeclarationLine(col: DatabaseColumn, enumNames: set<string>): string
  {
    "  " + col.name + ": " + TypeScriptType(col, enumNames) + ";"
  }

  /** One documented field of an interface: the doc-comment opener, then (for
      a non-empty comment) a newline and the comment line, then the default
      line, the closer and the declaration, each after a newline. The doc
      comment comes first and the declaration last. */
  function FieldText(col: DatabaseColumn, enumNames: set<string>): (r: string)
    ensures "  /**" <= r
    ensures EndsWith(r, "\n" + DeclarationLine(col, enumNames))
  {
    var comment := if HasComment(col) then "\n" + CommentLine(col) else "";
    "  /**" + comment + "\n" + DefaultLine(col) + "\n" + "   */" + "\n" + DeclarationLine(col, enumNames)
  }

  /** The lines of one field: doc comment opener, the comment line only for a
      non-empty comment, the default, the closer, the declaration. */
  function FieldLines(col: DatabaseColumn, enumNames: set<string>): seq<string>
  {
    ["  /**"]
      + (if HasComment(col) then [CommentLine(col)] else [])
      + [DefaultLine(col), "   */", DeclarationLine(col, enumNames)]
  }

  function FieldTexts(cols: seq<DatabaseColumn>, enumNames: set<string>): seq<string>
  {
    seq(|cols|, i requires 0 <= i < |cols| => FieldText(cols[i], enumNames))
  }

  function FieldBlocks(cols: seq<DatabaseColumn>, enumNames: set<string>): seq<seq<string>>
  {
    seq(|cols|, i requires 0 <= i < |cols| => FieldLines(cols[i], enumNames))
  }

  /** `generateTableInterface`: the interface header first, `}` last. */
  function TableInterface(t: DatabaseTable, enumNames: set<string>): (r: string)
    ensures "export interface " + t.name + " {\n" <= r
    ensures EndsWith(r, "\n}")
  {
    "export interface " + t.name + " {" + "\n" + Join(FieldTexts(t.columns, enumNames), "\n\n") + "\n" + "}"
  }

  /** The interface as lines: one field block per column, in column order,
      blocks separated by a blank line. */
  function InterfaceLines(t: DatabaseTable, enumNames: set<string>): seq<string>
  {
    ["export interface " + t.name + " {"] + Blocks(FieldBlocks(t.columns, enumNames)) + ["}"]
  }

  lemma FieldLayout(col: DatabaseColumn, enumNames: set<string>)
    ensures FieldText(col, enumNames) == Join(FieldLines(col, enumNames), "\n")
  {
    var d := DefaultLine(col);
    var decl := DeclarationLine(col, enumNames);
    if HasComment(col) {
      var c := CommentLine(col);
      Concat("  /**", "\n", c);
      JoinFive("  /**", c, d, "   */", decl);
      assert FieldLines(col, enumNames) == ["  /**", c, d, "   */", decl];
    } else {
      assert "  /**" + "" == "  /**";
      JoinFour("  /**", d, "   */", decl);
      assert FieldLines(col, enumNames) == ["  /**", d, "   */", decl];
    }
  }

  /** Blocks of non-empty line lists are non-empty. */
  lemma BlocksNonEmpty(bs: seq<seq<string>>)
    requires forall i :: 0 <= i < |bs| ==> |bs[i]| > 0
    ensures |Blocks(bs)| > 0
  {
    if |bs| > 0 {
      JoinNonEmpty(bs, [""]);
    }
  }

  lemma InterfaceLayout(t: DatabaseTable, enumNames: set<string>)
    ensures TableInterface(t, enumNames) == Join(InterfaceLines(t, enumNames), "\n")
  {
    var texts := FieldTexts(t.columns, enumNames);
    var bs := FieldBlocks(t.columns, enumNames);
    forall i | 0 <= i < |bs|
      ensures |bs[i]| > 0 && texts[i] == Join(bs[i], "\n")
    {
      FieldLayout(t.columns[i], enumNames);
    }
    JoinBlocks(texts, bs);
    BlocksNonEmpty(bs);
    var head := ["export interface " + t.name + " {"];
    JoinAppend(Blocks(bs), ["}"], "\n");
    JoinAppend(head, Blocks(bs) + ["}"], "\n");
    assert InterfaceLines(t, enumNames) == head + (Blocks(bs) + ["}"]);
  }

  // ---------------------------------------------------------------------------
  // Enum unions (generateEnumType)

  /** `values.replace('{', '').replace('}', '')`: only the FIRST brace of each
      kind is removed, so at most two characters go and every other character
      keeps its count. */
  function StripBraces(values: string): (r: string)
    ensures |values| - 2 <= |r| <= |values|
    ensures forall d :: d != '{' && d != '}' ==> Count(r, d) == Count(values, d)
  {
    ReplaceFirst(ReplaceFirst(values, '{'), '}')
  }

  /** The union members: the brace-stripped text split on commas. There is
      one more member than the stored text has commas; no member holds a comma,
      and joining the members with commas gives back the brace-stripped text. */
  function EnumMembers(values: string): (r: seq<string>)
    ensures |r| >= 1
    ensures |r| == Count(values, ',') + 1
    ensures forall i :: 0 <= i < |r| ==> ',' !in r[i]
    ensures Join(r, ",") == StripBraces(values)
  {
    var body := StripBraces(values);
    SplitCount(body, ',');
    SplitPiecesExclude(body, ',', ',');
    JoinSplit(body, ',');
    Split(body, ',')
  }

  function Quote(member: string): string
  {
    "  '" + member + "'"
  }

  function Quoted(labels: seq<string>): seq<string>
  {
    seq(|labels|, i requires 0 <= i < |labels| => Quote(labels[i]))
  }

  /** `generateEnumType`: the `export type` line first, `;` last. */
  function EnumType(e: DatabaseEnum): (r: string)
    ensures "export type " + e.name + " =\n" <= r
    ensures EndsWith(r, ";")
  {
    "export type " + e.name + " =\n" + Join(Quoted(EnumMembers(e.values)), " |\n") + ";"
  }

  /** The union as lines: one quoted member per line, in stored order, each
      but the last followed by ` |`, the last by `;`. */
  function UnionLines(labels: seq<string>): seq<string>
    requires |labels| >= 1
  {
    if |labels| == 1 then [Quote(labels[0]) + ";"]
    else [Quote(labels[0]) + " |"] + UnionLines(labels[1..])
  }

  function EnumLines(e: DatabaseEnum): seq<string>
  {
    ["export type " + e.name + " ="] + UnionLines(EnumMembers(e.values))
  }

  lemma {:induction false} UnionLayout(labels: seq<string>)
    requires |labels| >= 1
    ensures Join(Quoted(labels), " |\n") + ";" == Join(UnionLines(labels), "\n")
  {
    if |labels| > 1 {
      UnionLayout(labels[1..]);
      assert Quoted(labels)[1..] == Quoted(labels[1..]);
      var rest := UnionLines(labels[1..]);
      assert |rest| >= 1 by { if |labels[1..]| > 1 { } }
      assert ([Quote(labels[0]) + " |"] + rest)[1..] == rest;
    }
  }

  lemma EnumLayout(e: DatabaseEnum)
    ensures EnumType(e) == Join(EnumLines(e), "\n")
  {
    var members := EnumMembers(e.values);
    UnionLayout(members);
    var union := UnionLines(members);
    assert |union| >= 1 by { if |members| > 1 { } }
    JoinAppend(["export type " + e.name + " ="], union, "\n");
  }

  /** The declaration has the opening line and one union line per member:
      two lines more than the stored text has commas. */
  lemma EnumMemberCount(e: DatabaseEnum)
    ensures |EnumLines(e)| == Count(e.values, ',') + 2
  {
    UnionLinesCount(EnumMembers(e.values));
  }

  lemma {:induction false} UnionLinesCount(labels: seq<string>)
    requires |labels| >= 1
    ensures |UnionLines(labels)| == |labels|
  {
    if |labels| > 1 {
      UnionLinesCount(labels[1..]);
    }
  }

  /** Labels free of commas and braces, stored as `a,b,c` or as the array text
      `{a,b,c}`, come back as exactly those labels in exactly that order. */
  lemma EnumMembersRoundTrip(labels: seq<string>, braced: bool)
    requires |labels| >= 1
    requires forall i :: 0 <= i < |labels| ==> ',' !in labels[i] && '{' !in labels[i] && '}' !in labels[i]
    ensures var body := Join(labels, ",");
            EnumMembers(if braced then "{" + body + "}" else body) == labels
  {
    var body := Join(labels, ",");
    JoinExcludes(labels, ",", '{');
    JoinExcludes(labels, ",", '}');
    StripBracesOf(body, braced);
    SplitJoin(labels, ',');
  }

  /** Text without braces, bare or wrapped in one pair, loses exactly the pair. */
  lemma StripBracesOf(body: string, braced: bool)
    requires '{' !in body && '}' !in body
    ensures StripBraces(if braced then "{" + body + "}" else body) == body
  {
    if braced {
      var s := "{" + body + "}";
      assert s[0] == '{' && s[1..] == body + "}";
      assert ReplaceFirst(s, '{') == body + "}";
      ReplaceFirstTrailing(body, '}');
    }
  }

  /** A character absent from the pieces and the separator is absent from the join. */
  lemma {:induction false} JoinExcludes(xs: seq<string>, sep: string, d: char)
    requires d !in sep
    requires forall i :: 0 <= i < |xs| ==> d !in xs[i]
    ensures d !in Join(xs, sep)
  {
    if |xs| > 1 {
      JoinExcludes(xs[1..], sep, d);
    }
  }

  /** Deleting the first `c` of `t + [c]` when `t` has none removes the last one. */
  lemma {:induction false} ReplaceFirstTrailing(t: string, c: char)
    requires c !in t
    ensures ReplaceFirst(t + [c], c) == t
  {
    if |t| > 0 {
      assert (t + [c])[1..] == t[1..] + [c];
      ReplaceFirstTrailing(t[1..], c);
      assert [t[0]] + t[1..] == t;
    }
  }

  // ---------------------------------------------------------------------------
  // The registry (generateKnexTables)

  function RegistryEntry(t: DatabaseTable): string
  {
    "    " + t.name + ": " + t.name + ";"
  }

  function RegistryEntries(tables: seq<DatabaseTable>): seq<string>
  {
    seq(|tables|, i requires 0 <= i < |tables| => RegistryEntry(tables[i]))
  }

  /** `generateKnexTables`: the module augmentation wraps `interface Tables`. */
  function KnexTables(tables: seq<DatabaseTable>): (r: string)
    ensures "declare module 'knex/types/tables' {\n  interface Tables {\n" <= r
    ensures EndsWith(r, "\n  }\n}")
  {
    "declare module 'knex/types/tables' {" + "\n" + "  interface Tables {" + "\n"
      + Join(RegistryEntries(tables), "\n") + "\n" + "  }" + "\n" + "}"
  }

  /** The registry as lines: one `name: name;` entry per table, in table order,
      inside `interface Tables`; no tables leave one empty line. */
  function RegistryLines(tables: seq<DatabaseTable>): seq<string>
  {
    ["declare module 'knex/types/tables' {", "  interface Tables {"]
      + (if |tables| == 0 then [""] else RegistryEntries(tables))
      + ["  }", "}"]
  }

  lemma RegistryLayout(tables: seq<DatabaseTable>)
    ensures KnexTables(tables) == Join(RegistryLines(tables), "\n")
  {
    var body := if |tables| == 0 then [""] else RegistryEntries(tables);
    JoinFramed("declare module 'knex/types/tables' {", "  interface Tables {", body, "  }", "}", "\n");
  }

  // ---------------------------------------------------------------------------
  // The generated file (content assembly of generateTypes)

  /** The first line of the file. It is one line of text; it is spelled as two
      literals only because the verifier shows a short literal newline-free
      more cheaply than a long one. */
  const Header: string := "// This file is auto-generated." + " Do not edit it manually."

  function EnumNames(schema: DatabaseSchema): set<string>
  {
    set e | e in schema.enums :: e.name
  }

  function EnumTypes(enums: seq<DatabaseEnum>): seq<string>
  {
    seq(|enums|, i requires 0 <= i < |enums| => EnumType(enums[i]))
  }

  function EnumBlocks(enums: seq<DatabaseEnum>): seq<seq<string>>
  {
    seq(|enums|, i requires 0 <= i < |enums| => EnumLines(enums[i]))
  }

  function TableInterfaces(tables: seq<DatabaseTable>, enumNames: set<string>): seq<string>
  {
    seq(|tables|, i requires 0 <= i < |tables| => TableInterface(tables[i], enumNames))
  }

  function InterfaceBlocks(tables: seq<DatabaseTable>, enumNames: set<string>): seq<seq<string>>
  {
    seq(|tables|, i requires 0 <= i < |tables| => InterfaceLines(tables[i], enumNames))
  }

  /** The content `generateTypes` writes: header, enums, interfaces, registry,
      a blank line between sections and a trailing newline. The file starts
      with the header and a blank line and ends with the close of the registry
      and a newline. */
  function GenerateTypes(schema: DatabaseSchema): (r: string)
    ensures Header + "\n\n" <= r
    ensures EndsWith(r, "\n  }\n}\n")
  {
    var enumNames := EnumNames(schema);
    SectionsFrame(Header, Join(EnumTypes(schema.enums), "\n\n"),
                  Join(TableInterfaces(schema.tables, enumNames), "\n\n"),
                  KnexTables(schema.tables), "\n\n", "\n", "\n  }\n}");
    Header + "\n\n"
      + Join(EnumTypes(schema.enums), "\n\n") + "\n\n"
      + Join(TableInterfaces(schema.tables, enumNames), "\n\n") + "\n\n"
      + KnexTables(schema.tables) + "\n"
  }

  /** The generated file as lines. */
  function OutputLines(schema: DatabaseSchema): seq<string>
  {
    var enumNames := EnumNames(schema);
    [Header, ""]
      + Blocks(EnumBlocks(schema.enums)) + [""]
      + Blocks(InterfaceBlocks(schema.tables, enumNames)) + [""]
      + RegistryLines(schema.tables) + [""]
  }

  /** The file is exactly its line model joined by newlines. */
  lemma OutputLayout(schema: DatabaseSchema)
    ensures GenerateTypes(schema) == Join(OutputLines(schema), "\n")
  {
    var enumNames := EnumNames(schema);
    var eb := EnumBlocks(schema.enums);
    var ib := InterfaceBlocks(schema.tables, enumNames);
    EnumSectionLayout(schema.enums);
    InterfaceSectionLayout(schema.tables, enumNames);
    RegistryLayout(schema.tables);
    var e, t, k := Blocks(eb), Blocks(ib), RegistryLines(schema.tables);
    JoinSections(Header, e, t, k, "\n");
    assert "\n" + "\n" == "\n\n";
    assert OutputLines(schema) == [Header, ""] + e + [""] + t + [""] + k + [""];
  }

  /** The enum section: the declarations joined by blank lines. */
  lemma EnumSectionLayout(enums: seq<DatabaseEnum>)
    ensures |Blocks(EnumBlocks(enums))| > 0
    ensures Join(EnumTypes(enums), "\n\n") == Join(Blocks(EnumBlocks(enums)), "\n")
  {
    var eb := EnumBlocks(enums);
    forall i | 0 <= i < |eb|
      ensures |eb[i]| > 0 && EnumTypes(enums)[i] == Join(eb[i], "\n")
    {
      EnumLayout(enums[i]);
    }
    JoinBlocks(EnumTypes(enums), eb);
    BlocksNonEmpty(eb);
  }

  /** The interface section: the interfaces joined by blank lines. */
  lemma InterfaceSectionLayout(tables: seq<DatabaseTable>, enumNames: set<string>)
    ensures |Blocks(InterfaceBlocks(tables, enumNames))| > 0
    ensures Join(TableInterfaces(tables, enumNames), "\n\n") == Join(Blocks(InterfaceBlocks(tables, enumNames)), "\n")
  {
    var ib := InterfaceBlocks(tables, enumNames);
    forall i | 0 <= i < |ib|
      ensures |ib[i]| > 0 && TableInterfaces(tables, enumNames)[i] == Join(ib[i], "\n")
    {
      InterfaceLayout(tables[i], enumNames);
    }
    JoinBlocks(TableInterfaces(tables, enumNames), ib);
    BlocksNonEmpty(ib);
  }

  /** Every name, type tag, comment, default and enum text is one line. */
  ghost predicate SingleLine(schema: DatabaseSchema)
  {
    && (forall e | e in schema.enums :: '\n' !in e.name && '\n' !in e.values)
    && (forall t | t in schema.tables ::
          && '\n' !in t.name
          && forall c | c in t.columns :: ColumnSingleLine(c))
  }

  /** A column's name, type tag, comment and default are each one line. */
  predicate ColumnSingleLine(c: DatabaseColumn)
  {
    && '\n' !in c.name && '\n' !in c.columnType
    && (c.comment.Some? ==> '\n' !in c.comment.value)
    && (c.defaultValue.Some? ==> '\n' !in c.defaultValue.value)
  }

  /** Splitting the generated file on newlines gives back its line model: the
      sections, blocks, fields and registry entries are all where the model
      puts them. */
  lemma OutputLinesRecoverable(schema: DatabaseSchema)
    requires SingleLine(schema)
    ensures Split(GenerateTypes(schema), '\n') == OutputLines(schema)
  {
    OutputLayout(schema);
    OutputLinesSingle(schema);
    var ls := OutputLines(schema);
    forall i | 0 <= i < |ls| ensures '\n' !in ls[i] {
      assert ls[i] in ls;
    }
    SplitJoin(ls, '\n');
  }

  lemma OutputLinesSingle(schema: DatabaseSchema)
    requires SingleLine(schema)
    ensures NoNewline(OutputLines(schema))
  {
    var enumNames := EnumNames(schema);
    var eb := EnumBlocks(schema.enums);
    var ib := InterfaceBlocks(schema.tables, enumNames);
    forall i | 0 <= i < |eb| ensures NoNewline(eb[i]) {
      EnumLinesSingle(schema.enums[i]);
    }
    forall i | 0 <= i < |ib| ensures NoNewline(ib[i]) {
      assert schema.tables[i] in schema.tables;
      InterfaceLinesSingle(schema.tables[i], enumNames);
    }
    JoinNoNewline(eb, [""]);
    JoinNoNewline(ib, [""]);
    BlocksSingle(eb);
    BlocksSingle(ib);
    RegistryLinesSingle(schema.tables);
    HeaderSingle();
    var lines := OutputLines(schema);
    forall l | l in lines ensures '\n' !in l {
    }
  }

  /** The header is a single line. */
  lemma HeaderSingle()
    ensures '\n' !in Header
  {
    assert '\n' !in "// This file is auto-generated.";
    assert '\n' !in " Do not edit it manually.";
  }

  lemma BlocksSingle(bs: seq<seq<string>>)
    requires NoNewline(Join(bs, [""]))
    ensures NoNewline(Blocks(bs))
  {
  }

  lemma RegistryLinesSingle(tables: seq<DatabaseTable>)
    requires forall t | t in tables :: '\n' !in t.name
    ensures NoNewline(RegistryLines(tables))
  {
    RegistryEntriesSingle(tables);
    RegistryFrameSingle();
    var mid := if |tables| == 0 then [""] else RegistryEntries(tables);
    assert NoNewline(mid);
    assert RegistryLines(tables)
        == ["declare module 'knex/types/tables' {", "  interface Tables {"] + mid + ["  }", "}"];
  }

  lemma RegistryFrameSingle()
    ensures NoNewline(["declare module 'knex/types/tables' {", "  interface Tables {"])
    ensures NoNewline(["  }", "}"])
  {
    assert '\n' !in "declare module 'knex/types/tables' {";
    assert '\n' !in "  interface Tables {";
  }

  lemma RegistryEntriesSingle(tables: seq<DatabaseTable>)
    requires forall t | t in tables :: '\n' !in t.name
    ensures NoNewline(RegistryEntries(tables))
  {
    var entries := RegistryEntries(tables);
    forall l | l in entries ensures '\n' !in l {
      var i :| 0 <= i < |entries| && entries[i] == l;
      assert tables[i] in tables;
      assert '\n' !in "    " && '\n' !in ": " && '\n' !in ";";
    }
  }

  lemma EnumLinesSingle(e: DatabaseEnum)
    requires '\n' !in e.name && '\n' !in e.values
    ensures NoNewline(EnumLines(e))
  {
    var s := StripBraces(e.values);
    assert '\n' !in s;
    SplitPiecesExclude(s, ',', '\n');
    UnionLinesSingle(EnumMembers(e.values));
  }

  lemma {:induction false} UnionLinesSingle(labels: seq<string>)
    requires |labels| >= 1
    requires forall i :: 0 <= i < |labels| ==> '\n' !in labels[i]
    ensures NoNewline(UnionLines(labels))
  {
    if |labels| > 1 {
      UnionLinesSingle(labels[1..]);
    }
  }

  /** A newline-free type tag gives a newline-free field type. */
  lemma TypeSingle(col: DatabaseColumn, enumNames: set<string>)
    requires '\n' !in col.columnType
    ensures '\n' !in TypeScriptType(col, enumNames)
  {
    var base := BaseType(col, enumNames);
    if col.columnType !in enumNames {
      assert base in TsTypes;
      assert '\n' !in "number" && '\n' !in "string" && '\n' !in "boolean";
      assert '\n' !in "Date" && '\n' !in "unknown" && '\n' !in "number[]";
      assert '\n' !in "string[]" && '\n' !in "boolean[]" && '\n' !in "unknown[]";
    }
    assert '\n' !in NullSuffix;
  }

  lemma FieldLinesSingle(col: DatabaseColumn, enumNames: set<string>)
    requires ColumnSingleLine(col)
    ensures NoNewline(FieldLines(col, enumNames))
  {
    TypeSingle(col, enumNames);
    FieldLinesShape(col, enumNames);
    var ls := FieldLines(col, enumNames);
    assert '\n' !in "  /**" && '\n' !in "   * " && '\n' !in "   * @default ";
    assert '\n' !in "   */" && '\n' !in "  " && '\n' !in ": " && '\n' !in ";" && '\n' !in "null";
    forall i | 0 <= i < |ls| ensures '\n' !in ls[i] {
    }
  }

  lemma InterfaceLinesSingle(t: DatabaseTable, enumNames: set<string>)
    requires '\n' !in t.name
    requires forall c | c in t.columns :: ColumnSingleLine(c)
    ensures NoNewline(InterfaceLines(t, enumNames))
  {
    var bs := FieldBlocks(t.columns, enumNames);
    forall i | 0 <= i < |bs| ensures NoNewline(bs[i]) {
      assert t.columns[i] in t.columns;
      FieldLinesSingle(t.columns[i], enumNames);
    }
    JoinNoNewline(bs, [""]);
    assert '\n' !in "export interface " && '\n' !in " {" && '\n' !in "}";
  }

  /** Member `i` of the union is quoted on line `i`, followed by ` |` except
      for the last member, which ends the declaration with `;`. */
  lemma {:induction false} UnionLinesAt(labels: seq<string>, i: nat)
    requires i < |labels|
    ensures |UnionLines(labels)| == |labels|
    ensures UnionLines(labels)[i] == Quote(labels[i]) + (if i == |labels| - 1 then ";" else " |")
  {
    UnionLinesCount(labels);
    if i > 0 {
      UnionLinesAt(labels[1..], i - 1);
    }
  }

  /** Every enum's opening line and every one of its members is a line of the
      file. */
  lemma EnumDeclared(schema: DatabaseSchema, ei: nat, mi: nat)
    requires ei < |schema.enums|
    requires mi < |EnumMembers(schema.enums[ei].values)|
    ensures "export type " + schema.enums[ei].name + " =" in OutputLines(schema)
    ensures var members := EnumMembers(schema.enums[ei].values);
            Quote(members[mi]) + (if mi == |members| - 1 then ";" else " |") in OutputLines(schema)
  {
    var e := schema.enums[ei];
    var members := EnumMembers(e.values);
    var eb := EnumBlocks(schema.enums);
    UnionLinesAt(members, mi);
    var line := UnionLines(members)[mi];
    assert line in eb[ei];
    JoinContains(eb, [""], ei, line);
    assert "export type " + e.name + " =" in eb[ei];
    JoinContains(eb, [""], ei, "export type " + e.name + " =");
  }

  /** A field is the opener, the comment line exactly when the comment is
      non-empty, the `@default` line, the closer and the declaration. */
  lemma FieldLinesShape(col: DatabaseColumn, enumNames: set<string>)
    ensures var ls := FieldLines(col, enumNames);
            && |ls| == (if HasComment(col) then 5 else 4)
            && ls[0] == "  /**"
            && (HasComment(col) ==> ls[1] == CommentLine(col))
            && ls[|ls| - 3] == "   * @default " + (if col.defaultValue.None? then "null" else col.defaultValue.value)
            && ls[|ls| - 2] == "   */"
            && ls[|ls| - 1] == "  " + col.name + ": " + TypeScriptType(col, enumNames) + ";"
  {
  }

  /** The registry holds exactly one entry per table, in table order, between
      `interface Tables {` and its closing brace. */
  lemma RegistryLinesAt(tables: seq<DatabaseTable>, i: nat)
    requires i < |tables|
    ensures |RegistryLines(tables)| == 4 + |tables|
    ensures RegistryLines(tables)[0] == "declare module 'knex/types/tables' {"
    ensures RegistryLines(tables)[1] == "  interface Tables {"
    ensures RegistryLines(tables)[2 + i] == "    " + tables[i].name + ": " + tables[i].name + ";"
    ensures RegistryLines(tables)[2 + |tables|] == "  }"
    ensures RegistryLines(tables)[3 + |tables|] == "}"
  {
  }

  /** Every column of every table is declared on a line of its own in the
      file, and every table is registered in `Tables`. */
  lemma ColumnDeclared(schema: DatabaseSchema, ti: nat, ci: nat)
    requires ti < |schema.tables| && ci < |schema.tables[ti].columns|
    ensures DeclarationLine(schema.tables[ti].columns[ci], EnumNames(schema)) in OutputLines(schema)
    ensures RegistryEntry(schema.tables[ti]) in OutputLines(schema)
  {
    var names := EnumNames(schema);
    var t := schema.tables[ti];
    var decl := DeclarationLine(t.columns[ci], names);
    var fb := FieldBlocks(t.columns, names);
    var ib := InterfaceBlocks(schema.tables, names);
    assert decl in fb[ci];
    JoinContains(fb, [""], ci, decl);
    assert decl in ib[ti];
    JoinContains(ib, [""], ti, decl);
    assert RegistryEntry(t) in RegistryLines(schema.tables);
  }

  /** An empty schema still yields the header and an (empty) registry. */
  lemma EmptySchemaOutput()
    ensures GenerateTypes(DatabaseSchema([], []))
         == Header + "\n\n\n\n\n\n"
            + "declare module 'knex/types/tables' {\n  interface Tables {\n\n  }\n}\n"
  {
    assert EnumTypes([]) == [] && RegistryEntries([]) == [];
    assert TableInterfaces([], EnumNames(DatabaseSchema([], []))) == [];
  }

  // ---------------------------------------------------------------------------
  // The pipeline (generateTypes without the file system)

  /** Introspects the schema, then renders it; a failed query rejects the whole
      call with its error and nothing is generated. */
  method GenerateTypesFrom(db: Introspector.Oracle, schemaName: string)
    returns (r: Result<string>, ghost log: seq<Introspector.Query>)
    ensures log == Introspector.SchemaOutcome(db, schemaName).1
    ensures r.Success? <==> Introspector.SchemaOutcome(db, schemaName).0.Success?
    ensures r.Success? ==> r.value == GenerateTypes(Introspector.SchemaOutcome(db, schemaName).0.value)
    ensures r.Failure? ==> r.error == Introspector.SchemaOutcome(db, schemaName).0.error
  {
    var dbSchema;
    dbSchema, log := Introspector.IntrospectSchema(db, schemaName);
    if dbSchema.Failure? {
      return Failure(dbSchema.error), log;
    }
    r := Success(GenerateTypes(dbSchema.value));
  }
}
