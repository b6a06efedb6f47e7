# knex-ts-types-generator, modelled in Dafny

This project models the core of a command-line generator that reads a
PostgreSQL schema and writes TypeScript declarations for use with knex. The
pipeline has two stages:

- the **introspector** (`src/introspector.ts`) issues a tables query, one
  columns query per table row and an enums query, and turns the raw catalog
  rows into a schema value;
- the **generator** (`src/generator.ts`) maps catalog type tags to TypeScript
  types and renders enum unions, one interface per table, the knex `Tables`
  registry and the whole file.

The shared record shapes (`src/types.ts`) become datatypes.

Modules, one per source file plus two support modules:

| file | module | models |
|---|---|---|
| `types.dfy` | `Types` | `src/types.ts`: column, table, enum, schema and the raw rows; `T \| null` and optional fields become `Option<T>`, a rejected promise a `Result` failure |
| `text.dfy` | `Text` | the JavaScript string operations the generator is built from: `Array.join`, `String.split` on one character, and `String.replace` with a one-character pattern, which deletes the first occurrence only |
| `introspector.dfy` | `Introspector` | `src/introspector.ts` over an abstract query oracle |
| `generator.dfy` | `Generator` | `src/generator.ts` without the file system |
| `scenarios.dfy` | `Scenarios` | the concrete schemas and mocked connections of `tests/introspector.test.ts` and `tests/generator.test.ts` |

How each part is modelled:

- **The connection.** `db.raw(sql, params)` is an `Oracle`. For each of the
  three SQL texts it gives the reply to the call at position `n` with the
  given parameters: either rows or an error. A live database ignores the
  position; a mock that queues one reply per call uses it.
- **The query log.** The methods return the queries they issue as a ghost log.
- **The table loop.** `introspectTables` is a method with a `while` loop. It is
  proved equal to `ColumnsPhase`, a fold over the first `k` rows. The lemmas
  state the fold's meaning: one table per row, in row order; stop at the
  first failing query.
- **The text producers.** Each has a line model beside it (`FieldLines`,
  `InterfaceLines`, `EnumLines`, `RegistryLines`, `OutputLines`). A layout
  lemma proves the text is exactly those lines joined by newlines. When no
  name, type tag, comment, default or enum text contains a newline, splitting
  the file on newlines gives the line model back (`OutputLinesRecoverable`).
  Statements about lines of the generated file therefore hold of the text.
- **The type table.** `pgToTsTypeMap` is the function `TableType`, one branch
  per entry in the source's order, returning `None` for a tag that has no
  entry. It is a function rather than a Dafny `map` display only for proof
  cost: its entries and its result on every key are the same.

## Model

| member | source | states |
|---|---|---|
| Generator.TableType | src/generator.ts:7-69 | every tag that has an entry in `pgToTsTypeMap` maps to one of the nine TypeScript types `number`, `string`, `boolean`, `Date`, `unknown` and their array forms |
| Generator.TsTypesHaveNoNullSuffix | src/generator.ts:7-69 | none of those TypeScript types already ends in ` \| null` |
| Generator.PrecisionPolicy | src/generator.ts:9-61 | `int8`, `numeric` and `money` become `string` and `int2`, `int4` become `number` (lines 9-15); `_int8`, `_numeric`, `_money` become `string[]` and `_int2`, `_int4` become `number[]` (lines 55-61) |
| Generator.BaseType | src/generator.ts:71-77 | resolution never fails: an enum tag resolves to its own name, any other tag to one of the TypeScript types |
| Generator.TypeScriptType | src/generator.ts:71-79 | the type ends in ` \| null` exactly when the column is nullable, unless the column's enum name itself ends that way |
| Generator.EnumNameShadowsTable | src/generator.ts:73-74 | an enum name wins even when it is also a key of the table, and the result then differs from the table's entry |
| Generator.UnmappedIsUnknown | src/generator.ts:76 | a tag that is neither an enum nor a key becomes `unknown` (`unknown \| null` when nullable) |
| Generator.NullabilityRoundTrip | src/generator.ts:78 | for a column whose enum name (if it has one) does not itself end in ` \| null`, the field type reads back as exactly the base type plus the column's nullability: ` \| null` is appended iff the column is nullable |
| Generator.FieldText | src/generator.ts:83-89 | a field's text opens its doc comment first and ends with a newline and the `name: type;` declaration |
| Generator.FieldLayout | src/generator.ts:83-89 | a field's text is its lines joined by newlines: opener, comment line, `@default` line, closer, declaration |
| Generator.FieldLinesShape | src/generator.ts:85-89 | the comment line is present exactly when the comment is non-empty; `@default` shows `null` for a null default and the default verbatim otherwise; the last line declares `name: type;` |
| Generator.TableInterface | src/generator.ts:93-95 | an interface's text starts with `export interface name {` and a newline, and ends with a newline and `}` |
| Generator.InterfaceLayout | src/generator.ts:81-96 | an interface is its header, one field block per column in column order with a blank line between blocks, and `}` |
| Generator.ColumnDeclared | src/generator.ts:81-96 | every column of every table is declared on a line of the generated file, and every table is registered |
| Generator.StripBraces | src/generator.ts:99-101 | at most two characters are removed, both braces: every other character keeps its count |
| Generator.EnumMembers | src/generator.ts:99-102 | there is one more member than the stored text has commas; no member holds a comma; joining the members with commas gives the brace-stripped text back |
| Generator.EnumType | src/generator.ts:106 | an enum's text starts with `export type name =` and a newline, and ends with `;` |
| Generator.EnumLayout | src/generator.ts:98-107 | an enum declaration is its `export type name =` line followed by the union lines |
| Generator.UnionLinesAt | src/generator.ts:103-106 | member `i` is quoted on union line `i`; ` \|` follows every member but the last, and `;` follows the last |
| Generator.EnumMemberCount | src/generator.ts:98-107 | the declaration has two lines more than the stored text has commas: the opening line and one union line per member |
| Generator.EnumMembersRoundTrip | src/generator.ts:99-102 | labels free of commas and braces, stored as `a,b,c` or `{a,b,c}`, come back as exactly those labels in the same order |
| Generator.EnumDeclared | src/generator.ts:98-107 | every enum's opening line and every one of its union lines is a line of the generated file |
| Generator.KnexTables | src/generator.ts:114-118 | the registry text opens `declare module 'knex/types/tables'` and `interface Tables`, and ends by closing both |
| Generator.RegistryLayout | src/generator.ts:109-119 | the registry text is its lines joined by newlines |
| Generator.RegistryLinesAt | src/generator.ts:110-118 | the registry holds exactly one `name: name;` entry per table, in table order, between the lines that open and close `interface Tables`, inside the module declaration |
| Generator.OutputLayout | src/generator.ts:133-157 | the file is the header, the enum blocks, the interface blocks and the registry, with a blank line between sections and a final newline |
| Generator.OutputLinesRecoverable | src/generator.ts:150-157 | when every name, tag, comment, default and enum text is newline-free, splitting the file on newlines yields exactly the line model |
| Generator.GenerateTypes | src/generator.ts:150-157 | the file starts with the header line and a blank line, and ends with the close of the registry and a newline |
| Generator.EmptySchemaOutput | src/generator.ts:150-157 | an empty schema still yields the header and an empty `interface Tables` |
| Generator.GenerateTypesFrom | src/generator.ts:130-157 | the content is rendered only when introspection succeeds; a failed query rejects with that query's error; the queries issued are the introspector's |
| Introspector.ColumnFromRaw | src/introspector.ts:67-71 | the type is `data_type` when `udt_name` is `USER-DEFINED` and `udt_name` otherwise; nullable iff `is_nullable` is exactly `YES`; name, default and comment copied verbatim |
| Introspector.ColumnsFromRaw | src/introspector.ts:66-72 | one column per column row, in row order |
| Introspector.EnumFromRaw | src/introspector.ts:98-102 | name, schema and values are `typname`, `nspname` and `enumlabels`, the label text kept as it is |
| Introspector.EnumsFromRaw | src/introspector.ts:98-102 | one enum per enum row, in row order |
| Introspector.ColumnsPhase | src/introspector.ts:37-74 | after `k` rows the loop has issued the columns queries of the first rows in row order, at most `k` of them; on success exactly `k` queries and `k` tables; a failure has issued at least one |
| Introspector.TablesOutcome | src/introspector.ts:17-77 | the tables query comes first; a success holds one table per table row, after one query more than it has tables |
| Introspector.EnumsOutcome | src/introspector.ts:79-103 | exactly the one enums query is issued; it succeeds iff the query returns rows, with one enum per row, and otherwise fails with the query's error |
| Introspector.SchemaOutcome | src/introspector.ts:4-15 | the tables query comes first; a success ends with the enums query, after two queries more than there are tables |
| Introspector.FirstFailure | src/introspector.ts:37-61 | the first table row whose columns query fails, or the row count: every earlier row succeeds |
| Introspector.FailureSticks | src/introspector.ts:58-61 | once a columns query has failed, the loop issues no further query and its outcome does not change |
| Introspector.ColumnsPhaseSpec | src/introspector.ts:37-74 | the loop succeeds iff every columns query succeeds; it then holds one table per row, in row order, built from that row and its column rows, after one query per row; otherwise it fails with the first failing query's error, and that query is the last issued |
| Introspector.IntrospectTables | src/introspector.ts:17-77 | the loop method returns exactly the fold's result and issues exactly the fold's queries |
| Introspector.IntrospectEnums | src/introspector.ts:79-103 | one enum per enum row, in order, with name, schema and values taken from `typname`, `nspname` and `enumlabels`; a rejection is passed on |
| Introspector.IntrospectSchema | src/introspector.ts:4-15 | tables first, then the enums query as the next call, and only if the tables succeed |
| Introspector.QueryOrder | src/introspector.ts:8-9 | queries run in this order: the tables query with the schema argument; one columns query per row with that row's name and schema, up to and including the first that fails; the enums query only if none failed |
| Introspector.SchemaContents | src/introspector.ts:37-73 | on success there are exactly `2 + tables` queries; there is one table per tables row, named from the row rather than the argument; each table's columns follow its column rows; there is one enum per enum row |
| Introspector.FailurePropagation | src/introspector.ts:32-61 | every query but the last succeeded; the call fails exactly when the last query failed, and then with that query's error |
| Text.Split | src/generator.ts:102 | `split` never returns an empty list |
| Text.SplitCount | src/generator.ts:102 | the piece count is the separator count plus one |
| Text.JoinSplit | src/generator.ts:102-104 | joining the pieces of a split with the separator gives the string back |
| Text.SplitJoin | src/generator.ts:102-104 | splitting a join of separator-free pieces gives the pieces back |
| Text.ReplaceFirst | src/generator.ts:100-101 | `replace` with one character removes exactly one occurrence if there is one, and changes nothing otherwise |
| Text.ReplaceFirstAt | src/generator.ts:100-101 | the occurrence removed is the first one |
| Text.JoinBlocks | src/generator.ts:91 | joining texts with a blank line between them equals joining their line blocks with an empty line between blocks |
| Scenarios.MockedSchema | tests/introspector.test.ts:17-88 | the mocked connection yields one `users` table with its two columns in order and one enum, after three queries |
| Scenarios.EmptySchema | tests/introspector.test.ts:91-99 | an empty schema gives no tables and no enums after two queries |
| Scenarios.ConnectionFailure | tests/introspector.test.ts:102-105 | a rejected tables query rejects the call with `Database connection failed` after one query |
| Scenarios.MockedEnumLabels | tests/introspector.test.ts:82-85 | the braced enum text of the mock yields `admin`, `user`, `guest` in order |
| Scenarios.TestSchemaDeclarations | tests/generator.test.ts:88-96 | `id` is declared `number`, `email` `string`, and `role` `user_role \| null` |
| Scenarios.TestSchemaLines | tests/generator.test.ts:84-96 | those declarations, `export type user_role =` and `'admin' \|` are lines of the generated file |

## Left out

- The file system and console: `fs.mkdir`, `fs.writeFile` and the two `console.log` counts in `generateTypes` are not modelled. `GenerateTypesFrom` returns the content instead of writing it.
- `src/cli.ts` is not part of this model: option parsing, the spinner, `process.exit` and the rejection handler. The `--dry-run` option does not suppress the write, because `generateTypes` always writes.
- `src/db.ts` is not part of this model: connection configuration and the start-up `SELECT 1`.
- SQL text and catalog semantics are the database's promise and are not modelled. The oracle's rows are taken as given, so `ORDER BY table_name`, the enum label order and the comment join are not checked.
- `async`/`await`: nothing runs concurrently, so the pipeline is sequential.
- JavaScript prototype keys are not modelled: looking up `constructor` and similar keys in `pgToTsTypeMap` yields a truthy inherited member. The table here has exactly its 46 entries.
- `enumlabels` follows the declared type, a single string. `tests/introspector.test.ts:85` mocks it as an array and expects an array back, which the declared types do not allow.
- Enum labels containing commas or braces do not round-trip: `split(',')` cuts inside a label with a comma, and the brace removal takes a label's brace. `EnumMembersRoundTrip` is stated only for labels free of commas and braces. The database's quoting of such labels in array text is not modelled.
- Labels are quoted without escaping: like `src/generator.ts:103`, `Quote` escapes neither `'` nor `\`, so a label such as `it's` yields the invalid literal `'it's'`. The model follows the code and states nothing about the literal being valid TypeScript.
- Name clashes: a table whose name equals an enum name, or an enum named like a TypeScript type, produces clashing declarations. This is not modelled as an error, because the source does not check for it.
- Generator.OutputLinesRecoverable: a name, comment or default containing a newline breaks the line structure. The split property is proved only for newline-free schemas, while the layout property (`OutputLayout`) holds for every schema.
- The column type follows the code: `data_type` is used only when `udt_name` is `USER-DEFINED`. For a column of an enum type the catalog reports the enum's name as `udt_name`, so the code uses that name directly.
- The default argument `schema = 'public'` of `introspectSchema` (`src/introspector.ts:6`) and `generateTypes` (`src/generator.ts:124`) is not modelled: `IntrospectSchema` and `GenerateTypesFrom` take the schema name explicitly, and callers that rely on the default pass `"public"`, as the scenarios of `tests/introspector.test.ts` do.
- The oracle's call position is an artefact of the model: it lets a queued mock and a live database both be oracles.
