/** The data model of a bulk load: how an entity type is mapped to its table (as the
    mapping layer reports it), the in-memory records, the transfer buffer's cells and
    the failures a bulk load can raise. */
module Entities {

  /** Name of a CLR type (an entity class or a scalar type such as Int32). */
  type TypeName = string

  /** One mapped property of an entity type, with the flags the mapping layer reports. */
  datatype Property = Property(
    propertyName: string,
    columnName: string,
    clrType: TypeName,
    isNavigationProperty: bool,
    isFk: bool,
    isIdentity: bool,
    isPk: bool)

  /** The mapping of one entity type: its table, its properties in mapping order and
      its primary-key properties in key order. */
  datatype EntityMapping = EntityMapping(tableName: string, properties: seq<Property>, pks: seq<Property>)

  /** The mapping layer's lookup `db.Db(type)`, for every mapped entity type. */
  type Catalog = map<TypeName, EntityMapping>

  /** A property value read from a record: null, a scalar, or a related entity object
      (the value of a navigation property), itself a record of property values. */
  datatype Value =
    | Null
    | Scalar(text: string)
    | Entity(entityType: TypeName, fields: map<string, Value>)

  /** An in-memory entity: the value of each of its properties, by property name. */
  type Record = map<string, Value>

  /** A column of the transfer buffer: its name and its data type. */
  datatype Column = Column(name: string, dataType: TypeName)

  /** A buffer cell: the DBNull marker or a value. */
  datatype Cell = DbNull | Data(v: Value)

  /** A buffer row: the cell of each column, by column name. */
  type Row = map<string, Cell>

  /** The database calls a bulk load makes, in the order the modes make them. */
  datatype Step = DeleteRows | BulkCopyToTarget | CreateStaging | BulkCopyToStaging | ExecuteMerge | DropStaging

  /** The underlying causes of a failed bulk load. */
  datatype Fault =
    | UnmappedType(typeName: TypeName)             // the mapping layer knows no such entity type
    | NoPrimaryKey(typeName: TypeName)             // `Pks[0]` on an entity type without keys
    | DuplicateColumn(column: string)              // `dt.Columns.Add` with a name already present
    | MissingProperty(property: string)            // reflection finds no such property
    | NullNavigation(property: string)             // an FK navigation property holding null
    | NotAnEntity(property: string)                // an FK navigation property holding a non-entity
    | NullAssigned(column: string)                 // C# null (not DBNull) assigned to a row cell
    | RemoveOutOfRange(startIndex: int)            // `string.Remove` with an index outside the string
    | DuplicateKey                                 // a primary-key violation or a MERGE double match
    | DatabaseError(step: Step)                    // a database call that failed on the server

  /** The exception chain the caller sees: the outermost exception wraps its inner one. */
  datatype Exception =
    | Cause(fault: Fault)
    | ArgumentException(message: string, inner: Exception)

  datatype Result<T> = Ok(value: T) | Err(error: Fault)

  datatype Option<T> = None | Some(value: T)

  /** True for the properties that take part in the transfer: every mapped property
      except a navigation property that is not a foreign key. */
  predicate Transferred(p: Property)
  {
    !(p.isNavigationProperty && !p.isFk)
  }

  /** True for an FK navigation property, whose column holds the referenced entity's key. */
  predicate IsFkNavigation(p: Property)
  {
    p.isNavigationProperty && p.isFk
  }

  /** The transfer properties: the mapped properties filtered by `Transferred`, in mapping order. */
  function TransferProperties(props: seq<Property>): (r: seq<Property>)
    ensures forall p :: p in r <==> p in props && Transferred(p)
    ensures |r| <= |props|
  {
    if props == [] then []
    else if Transferred(props[|props| - 1]) then TransferProperties(props[..|props| - 1]) + [props[|props| - 1]]
    else TransferProperties(props[..|props| - 1])
  }

  /** The filter keeps mapping order: filtering a concatenation concatenates the filtered parts. */
  lemma {:induction false} TransferPropertiesOfConcat(a: seq<Property>, b: seq<Property>)
    ensures TransferProperties(a + b) == TransferProperties(a) + TransferProperties(b)
  {
    if b == [] {
      assert a + b == a;
    } else {
      var b' := b[..|b| - 1];
      assert (a + b)[..|a + b| - 1] == a + b';
      TransferPropertiesOfConcat(a, b');
    }
  }

  /** Properties already admitted by the filter pass through it unchanged. */
  lemma {:induction false} TransferPropertiesIdempotent(props: seq<Property>)
    ensures TransferProperties(TransferProperties(props)) == TransferProperties(props)
  {
    if props != [] {
      var init := props[..|props| - 1];
      TransferPropertiesIdempotent(init);
      if Transferred(props[|props| - 1]) {
        TransferPropertiesOfConcat(TransferProperties(init), [props[|props| - 1]]);
        assert TransferProperties([props[|props| - 1]]) == [props[|props| - 1]] by {
          assert [props[|props| - 1]][..0] == [];
        }
      }
    }
  }

  /** The column names of a property sequence, in order. */
  function ColumnNames(props: seq<Property>): (r: seq<string>)
    ensures |r| == |props|
    ensures forall i :: 0 <= i < |props| ==> r[i] == props[i].columnName
  {
    seq(|props|, i requires 0 <= i < |props| => props[i].columnName)
  }

  /** No two entries of `names` are equal. */
  predicate Distinct(names: seq<string>)
  {
    forall i, j :: 0 <= i < j < |names| ==> names[i] != names[j]
  }
}
