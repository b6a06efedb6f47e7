/** The behaviours the repository's own tests describe, stated as lemmas over
    concrete oracles and schemas (tests/introspector.test.ts and
    tests/generator.test.ts). */
module Scenarios {
  import opened Types
  import opened Text
  import opened Introspector
  import opened Generator

  // ---------------------------------------------------------------------------
  // The introspector against a mocked connection

  const UsersRow: RawTable := RawTable("users", "public")

  const IdRaw: RawColumn := RawColumn("id", "integer", "int4", "NO", None, Some("Primary key"))
  const EmailRaw: RawColumn := RawColumn("email", "character varying", "varchar", "NO", None, None)

  /** The enum row as the driver hands over an unparsed enum array: the
      labels in braces. */
  const RoleRaw: RawEnum := RawEnum("user_role", "public", "{admin,user,guest}")

  /** A connection that answers one table, its two columns and one enum. */
  const Mocked: Oracle := Oracle(
    (n: nat, p: seq<string>) => Rows([UsersRow]),
    (n: nat, p: seq<string>) => Rows([IdRaw, EmailRaw]),
    (n: nat, p: seq<string>) => Rows([RoleRaw]))

  /** A connection to a schema with neither tables nor enums. */
  const Empty: Oracle := Oracle(
    (n: nat, p: seq<string>) => Rows([]),
    (n: nat, p: seq<string>) => Rows([]),
    (n: nat, p: seq<string>) => Rows([]))

  /** A connection whose first query is rejected. */
  const Broken: Oracle := Oracle(
    (n: nat, p: seq<string>) => Failed("Database connection failed"),
    (n: nat, p: seq<string>) => Rows([]),
    (n: nat, p: seq<string>) => Rows([]))

  /** One table with its two columns in order, one enum, three queries. */
  lemma MockedSchema()
    ensures var (r, log) := SchemaOutcome(Mocked, "public");
            && r.Success?
            && |r.value.tables| == 1 && |r.value.enums| == 1
            && r.value.tables[0].name == "users" && r.value.tables[0].schema == "public"
            && r.value.tables[0].columns
               == [DatabaseColumn("id", "int4", false, None, Some("Primary key")),
                   DatabaseColumn("email", "varchar", false, None, None)]
            && r.value.enums[0] == DatabaseEnum("user_role", "public", "{admin,user,guest}")
            && log == [TablesQuery("public"), ColumnsQuery(UsersRow), EnumsQuery("public")]
  {
    var rows := [UsersRow];
    assert ColumnsPhase(Mocked, rows, 0) == (Success([]), []);
    assert [] + [ColumnsQuery(UsersRow)] == [ColumnsQuery(UsersRow)];
    assert [] + [TableFromRows(UsersRow, [IdRaw, EmailRaw])] == [TableFromRows(UsersRow, [IdRaw, EmailRaw])];
    assert ColumnsPhase(Mocked, rows, 1)
        == (Success([TableFromRows(UsersRow, [IdRaw, EmailRaw])]), [ColumnsQuery(UsersRow)]);
    assert "int4" != "USER-DEFINED" && "varchar" != "USER-DEFINED";
    assert ColumnFromRaw(IdRaw) == DatabaseColumn("id", "int4", false, None, Some("Primary key"));
    assert ColumnFromRaw(EmailRaw) == DatabaseColumn("email", "varchar", false, None, None);
    assert ColumnsFromRaw([IdRaw, EmailRaw])
        == [DatabaseColumn("id", "int4", false, None, Some("Primary key")),
            DatabaseColumn("email", "varchar", false, None, None)];
  }

  /** The stored enum text yields the three labels in order. */
  lemma MockedEnumLabels()
    ensures EnumMembers(RoleRaw.enumlabels) == ["admin", "user", "guest"]
  {
    var labels := ["admin", "user", "guest"];
    JoinCons("user", ["guest"], ",");
    JoinCons("admin", ["user", "guest"], ",");
    assert Join(labels, ",") == "admin,user,guest";
    assert "{" + "admin,user,guest" + "}" == RoleRaw.enumlabels;
    EnumMembersRoundTrip(labels, true);
  }

  /** An empty schema: no tables, no enums, and only the two listing queries. */
  lemma EmptySchema()
    ensures SchemaOutcome(Empty, "public") == (Success(DatabaseSchema([], [])), [TablesQuery("public"), EnumsQuery("public")])
  {
    assert ColumnsPhase(Empty, [], 0) == (Success([]), []);
    assert [TablesQuery("public")] + [] == [TablesQuery("public")];
    var t := TablesOutcome(Empty, "public");
    assert t == (Success([]), [TablesQuery("public")]);
    assert EnumsFromRaw([]) == [];
    assert Empty.enums(1, ["public"]) == Rows([]);
    assert EnumsOutcome(Empty, |t.1|, "public") == (Success([]), [EnumsQuery("public")]);
    assert [TablesQuery("public")] + [EnumsQuery("public")] == [TablesQuery("public"), EnumsQuery("public")];
  }

  /** A rejected tables query rejects the whole call with its message, after
      one query. */
  lemma ConnectionFailure()
    ensures SchemaOutcome(Broken, "public") == (Failure("Database connection failed"), [TablesQuery("public")])
  {
  }

  // ---------------------------------------------------------------------------
  // The generator on the test schema

  const IdColumn: DatabaseColumn := DatabaseColumn("id", "int4", false, None, Some("Primary key"))
  const EmailColumn: DatabaseColumn := DatabaseColumn("email", "varchar", false, None, None)
  const RoleColumn: DatabaseColumn := DatabaseColumn("role", "user_role", true, None, None)
  const UsersTable: DatabaseTable := DatabaseTable("users", "public", [IdColumn, EmailColumn, RoleColumn])
  const RoleEnum: DatabaseEnum := DatabaseEnum("user_role", "public", "admin,user,guest")
  const TestSchema: DatabaseSchema := DatabaseSchema([UsersTable], [RoleEnum])

  lemma TestEnumNames()
    ensures EnumNames(TestSchema) == {"user_role"}
  {
    assert RoleEnum in TestSchema.enums;
  }

  /** The declarations the generator test looks for: `id` is a number, `email`
      a string, and the nullable enum column `role` is `user_role | null`. */
  lemma TestSchemaDeclarations()
    ensures DeclarationLine(IdColumn, EnumNames(TestSchema)) == "  id: number;"
    ensures DeclarationLine(EmailColumn, EnumNames(TestSchema)) == "  email: string;"
    ensures DeclarationLine(RoleColumn, EnumNames(TestSchema)) == "  role: user_role | null;"
  {
    TestEnumNames();
    IdDeclaration({"user_role"});
    EmailDeclaration({"user_role"});
    RoleDeclaration({"user_role"});
  }

  lemma IdDeclaration(names: set<string>)
    requires names == {"user_role"}
    ensures DeclarationLine(IdColumn, names) == "  id: number;"
  {
    assert "int4" != "user_role";
    assert TypeScriptType(IdColumn, names) == "number";
  }

  lemma EmailDeclaration(names: set<string>)
    requires names == {"user_role"}
    ensures DeclarationLine(EmailColumn, names) == "  email: string;"
  {
    assert "varchar" != "user_role";
    assert TypeScriptType(EmailColumn, names) == "string";
  }

  lemma RoleDeclaration(names: set<string>)
    requires names == {"user_role"}
    ensures DeclarationLine(RoleColumn, names) == "  role: user_role | null;"
  {
    assert TypeScriptType(RoleColumn, names) == "user_role" + " | null";
  }

  lemma TestSchemaSingleLine()
    ensures SingleLine(TestSchema)
  {
    assert '\n' !in "admin,user,guest" && '\n' !in "user_role";
    UsersTableSingleLine();
    assert forall t | t in TestSchema.tables :: t == UsersTable;
  }

  lemma UsersTableSingleLine()
    ensures '\n' !in UsersTable.name
    ensures forall c | c in UsersTable.columns :: ColumnSingleLine(c)
  {
    assert ColumnSingleLine(IdColumn) by {
      assert '\n' !in "id" && '\n' !in "int4" && '\n' !in "Primary key";
    }
    assert ColumnSingleLine(EmailColumn) by {
      assert '\n' !in "email" && '\n' !in "varchar";
    }
    assert ColumnSingleLine(RoleColumn) by {
      assert '\n' !in "role";
    }
    assert '\n' !in "users";
  }

  /** Each of those declarations, the enum's opening line and its first
      member are lines of the generated file. */
  lemma TestSchemaLines()
    ensures var lines := Split(GenerateTypes(TestSchema), '\n');
            && "  id: number;" in lines
            && "  email: string;" in lines
            && "  role: user_role | null;" in lines
            && "export type user_role =" in lines
            && "  'admin' |" in lines
  {
    TestSchemaEnum();
    TestSchemaDeclarations();
    TestSchemaSingleLine();
    OutputLinesRecoverable(TestSchema);
    ColumnDeclared(TestSchema, 0, 0);
    ColumnDeclared(TestSchema, 0, 1);
    ColumnDeclared(TestSchema, 0, 2);
  }

  /** The enum of the test schema opens with `export type user_role =` and
      lists `'admin'` first, followed by ` |`. */
  lemma TestSchemaEnum()
    ensures var lines := OutputLines(TestSchema);
            && "export type user_role =" in lines
            && "  'admin' |" in lines
  {
    EnumLabelsOf(RoleEnum.values);
    EnumDeclared(TestSchema, 0, 0);
    TestEnumLines(EnumMembers(RoleEnum.values));
  }

  lemma TestEnumLines(members: seq<string>)
    requires members == ["admin", "user", "guest"]
    ensures Quote(members[0]) + (if 0 == |members| - 1 then ";" else " |") == "  'admin' |"
    ensures "export type " + RoleEnum.name + " =" == "export type user_role ="
  {
  }

  lemma EnumLabelsOf(values: string)
    requires values == "admin,user,guest"
    ensures EnumMembers(values) == ["admin", "user", "guest"]
  {
    var labels := ["admin", "user", "guest"];
    JoinCons("user", ["guest"], ",");
    JoinCons("admin", ["user", "guest"], ",");
    assert Join(labels, ",") == values;
    EnumMembersRoundTrip(labels, false);
  }
}
