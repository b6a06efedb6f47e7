/** The record shapes shared by the introspector and the generator (src/types.ts).
    JavaScript's `T | null` and optional properties become `Option<T>`. */
module Types {

  datatype Option<+T> = None | Some(value: T)

  /** A rejected promise carries an error message; a resolved one a value. */
  datatype Result<+T> = Success(value: T) | Failure(error: string)

  /** One column of a table, as the generator consumes it. `columnType` is the
      catalog's short type tag (`int4`, `varchar`, an enum's own name). */
  datatype DatabaseColumn = DatabaseColumn(
    name: string,
    columnType: string,
    isNullable: bool,
    defaultValue: Option<string>,
    comment: Option<string>)

  /** A base table: its columns are kept in ordinal order. */
  datatype DatabaseTable = DatabaseTable(
    name: string,
    schema: string,
    columns: seq<DatabaseColumn>)

  /** An enumerated type. `values` is ONE delimited string such as
      `admin,user,guest` or `{admin,user,guest}`, not a list of labels. */
  datatype DatabaseEnum = DatabaseEnum(
    name: string,
    schema: string,
    values: string)

  datatype DatabaseSchema = DatabaseSchema(
    tables: seq<DatabaseTable>,
    enums: seq<DatabaseEnum>)

  /** A row of the columns query (labels column_name, data_type, udt_name,
      is_nullable, column_default, description). `isNullable` is the catalog's
      text `YES` or `NO`. */
  datatype RawColumn = RawColumn(
    columnName: string,
    dataType: string,
    udtName: string,
    isNullable: string,
    columnDefault: Option<string>,
    description: Option<string>)

  /** A row of the enums query (labels typname, nspname, enumlabels). */
  datatype RawEnum = RawEnum(
    typname: string,
    nspname: string,
    enumlabels: string)
}
