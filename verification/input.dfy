/** The annotation scanner: `InputFile.Init` over an already-parsed source file. */
module Input {
  import opened Results
  import opened Text
  import opened Templates

  // ---------------------------------------------------------------------------
  // The parsed declarations the scanner walks (a simplified `go/ast`)

  /** The type expressions whose `%v` rendering the scanner normalises. */
  datatype BaseType = Ident(name: string) | Selector(pkg: string, sel: string)

  /** A field's declared type: a base type, or a pointer to one. */
  datatype TypeExpr = Plain(base: BaseType) | Star(elem: BaseType)

  /** A struct field: its names (empty for an embedded field), its type and its raw tag literal,
      backquotes included. */
  datatype Field = Field(names: seq<string>, typ: TypeExpr, tag: Option<string>)

  datatype TypeBody = StructType(fields: seq<Field>) | OtherType

  /** A spec of a general declaration: a type spec, whose name may be nil, or an import or
      value spec. */
  datatype Spec = TypeSpec(name: Option<string>, body: TypeBody) | OtherSpec

  /** A top-level declaration: a general declaration with its doc comment lines, if any, or any
      other declaration (a function, say). */
  datatype Decl = GenDecl(doc: Option<seq<string>>, specs: seq<Spec>) | OtherDecl

  datatype SourceFile = SourceFile(packageName: Option<string>, decls: seq<Decl>)

  // ---------------------------------------------------------------------------
  // The table model

  /** What `col.init` builds from a field; its values are whatever `col.init` returns. */
  datatype Column = Column(name: string, typ: string, sqlType: string, isPrimary: bool)

  datatype Table = Table(
    name: string,
    columns: seq<Column>,
    primaryKeys: seq<Column>,
    hasConn: bool,
    conn: string)

  datatype InputFile = InputFile(packageName: string, buildTarget: string, tables: seq<Table>)

  datatype Error =
    | NotGoFile(path: string)
    | MissingTableName
    | BadTag(payload: string, cause: string)

  /** `col.init(name, ftype, payload)`, which is not part of this model. */
  type ColumnInit = (string, string, string) -> Result<Column, string>

  /** The receiver after `Init` returns, and the error it returned, if any. */
  datatype Outcome = Outcome(file: InputFile, err: Option<Error>)

  const GoExt: string := ".go"
  const TargetSuffix: string := "_tabler.go"
  const Marker: string := "@table"
  const ConnType: string := "*sql.DB"

  // ---------------------------------------------------------------------------
  // Field types

  /** `printableType`: strips a struct rendering's `&{` and `}` and joins its parts with dots. */
  function PrintableType(t: string): (r: string)
    ensures forall i :: 0 <= i < |r| ==> r[i] != ' '
    ensures |r| <= |t|
  {
    SpacesToDots(TrimSuffix(TrimPrefix(t, "&{"), "}"))
  }

  /** `fmt.Sprintf("%v", x)`: an identifier prints its name, a selector prints as a struct of
      two identifiers. */
  function Render(b: BaseType): string {
    match b
    case Ident(n) => n
    case Selector(p, s) => "&{" + p + " " + s + "}"
  }

  /** The normalised type of a field, `*` in front for a top-level pointer. */
  function FieldType(t: TypeExpr): string {
    match t
    case Star(b) => "*" + PrintableType(Render(b))
    case Plain(b) => PrintableType(Render(b))
  }

  // ---------------------------------------------------------------------------
  // Build target

  /** The generated file's path: the input path with `.go` replaced by `_tabler.go`. */
  function BuildTarget(path: string): (r: Result<string, Error>)
    ensures r.Ok? <==> HasSuffix(path, GoExt)
    ensures r.Err? ==> r.error == NotGoFile(path)
    ensures r.Ok? ==> HasSuffix(r.value, TargetSuffix)
    ensures r.Ok? ==> r.value[..|r.value| - |TargetSuffix|] + GoExt == path
  {
    if HasSuffix(path, GoExt) then
      var root := TrimSuffix(path, GoExt);
      var (dir, file) := Split(root);
      var target := Join(dir, file + TargetSuffix);
      assert target == root + TargetSuffix;
      Ok(target)
    else
      Err(NotGoFile(path))
  }

  // ---------------------------------------------------------------------------
  // Marker and name

  /** Some line of the doc comment contains the marker. */
  predicate HasMarker(lines: seq<string>) {
    exists k :: 0 <= k < |lines| && Contains(lines[k], Marker)
  }

  /** A general declaration with a doc comment that carries the marker. */
  predicate IsMarked(d: Decl) {
    d.GenDecl? && d.doc.Some? && HasMarker(d.doc.value)
  }

  predicate NamedTypeSpec(s: Spec) {
    s.TypeSpec? && s.name.Some?
  }

  /** The name of the first type spec whose name is not nil. */
  function FirstTypeName(specs: seq<Spec>): (r: Option<string>)
    ensures r.None? <==> forall k :: 0 <= k < |specs| ==> !NamedTypeSpec(specs[k])
    ensures r.Some? ==>
      exists k :: 0 <= k < |specs| && NamedTypeSpec(specs[k]) && specs[k].name == Some(r.value)
        && forall j :: 0 <= j < k ==> !NamedTypeSpec(specs[j])
  {
    if specs == [] then None
    else if NamedTypeSpec(specs[0]) then specs[0].name
    else
      var r := FirstTypeName(specs[1..]);
      assert forall k :: 1 <= k < |specs| ==> specs[k] == specs[1..][k - 1];
      r
  }

  /** The table name `Init` extracts, the empty string when there is none. */
  function TableName(d: Decl): string
    requires d.GenDecl?
  {
    match FirstTypeName(d.specs)
    case Some(name) => name
    case None => ""
  }

  // ---------------------------------------------------------------------------
  // Fields

  /** The field carries a tag and the tag pattern matches it. */
  predicate HasTablerTag(f: Field) {
    f.tag.Some? && TagPayload(f.tag.value).Some?
  }

  predicate IsConnField(f: Field) {
    FieldType(f.typ) == ConnType
  }

  /** `field.Names[0]` is read only for a connection field or a field with a tabler tag; an
      embedded one of those makes Go panic. */
  predicate FieldSafe(f: Field) {
    (IsConnField(f) || HasTablerTag(f)) ==> |f.names| > 0
  }

  /** Every field is safe, whether the loop reaches it or not. */
  predicate AllFieldsSafe(fields: seq<Field>) {
    forall k :: 0 <= k < |fields| ==> FieldSafe(fields[k])
  }

  /** The field loop goes on past `f`: it has no tabler tag, or `col.init` accepts it. */
  predicate FieldPasses(f: Field, colInit: ColumnInit)
    requires FieldSafe(f)
  {
    !HasTablerTag(f) || colInit(f.names[0], FieldType(f.typ), TagPayload(f.tag.value).value).Ok?
  }

  /** Every field is safe and passes: the loop runs to the end. */
  predicate AllPass(fields: seq<Field>, colInit: ColumnInit) {
    forall k :: 0 <= k < |fields| ==> FieldSafe(fields[k]) && FieldPasses(fields[k], colInit)
  }

  /** The fields Go reaches are safe: the loop stops at the first field `col.init` rejects, so
      the fields after it are never read. */
  predicate FieldsSafe(fields: seq<Field>, colInit: ColumnInit)
    decreases |fields|
  {
    fields == [] ||
    (FieldSafe(fields[0]) && (FieldPasses(fields[0], colInit) ==> FieldsSafe(fields[1..], colInit)))
  }

  /** `t` with Column `c` appended, and to the primary keys too when `c` is primary. */
  function AddColumn(t: Table, c: Column): Table {
    t.(columns := t.columns + [c],
       primaryKeys := if c.isPrimary then t.primaryKeys + [c] else t.primaryKeys)
  }

  /** One iteration of the field loop: record a connection field, then turn a tabler-tagged field
      into a Column. */
  function ScanField(t: Table, f: Field, colInit: ColumnInit): (r: Result<Table, Error>)
    requires FieldSafe(f)
    ensures r.Ok? ==> r.value.name == t.name && t.columns <= r.value.columns
    ensures r.Ok? <==> FieldPasses(f, colInit)
  {
    var ftype := FieldType(f.typ);
    var t1 := if ftype == ConnType then t.(hasConn := true, conn := f.names[0]) else t;
    if f.tag.None? then Ok(t1)
    else
      match TagPayload(f.tag.value)
      case None => Ok(t1)
      case Some(p) =>
        match colInit(f.names[0], ftype, p)
        case Err(cause) => Err(BadTag(p, cause))
        case Ok(c) => Ok(AddColumn(t1, c))
  }

  /** The field loop, stopping at the first `col.init` failure. */
  function ScanFields(t: Table, fields: seq<Field>, colInit: ColumnInit): (r: Result<Table, Error>)
    requires FieldsSafe(fields, colInit)
    ensures r.Ok? ==> r.value.name == t.name
    ensures r.Ok? ==> |t.columns| <= |r.value.columns|
    ensures r.Ok? <==> AllPass(fields, colInit)
    decreases |fields|
  {
    if fields == [] then Ok(t)
    else
      assert forall k :: 1 <= k < |fields| ==> fields[k] == fields[1..][k - 1];
      match ScanField(t, fields[0], colInit)
      case Err(e) => Err(e)
      case Ok(t1) => ScanFields(t1, fields[1..], colInit)
  }

  // ---------------------------------------------------------------------------
  // Declarations

  /** The fields of the first spec of a general declaration, where `Init` looks for them. */
  predicate HasStructFirst(d: Decl) {
    d.GenDecl? && |d.specs| > 0 && d.specs[0].TypeSpec? && d.specs[0].body.StructType?
  }

  function StructFields(d: Decl): seq<Field>
    requires HasStructFirst(d)
  {
    d.specs[0].body.fields
  }

  /** What Go needs of a declaration to avoid a panic: a marked and named declaration has a
      struct type as its first spec, and the fields the loop reaches are safe. */
  predicate DeclSafe(d: Decl, colInit: ColumnInit) {
    IsMarked(d) && TableName(d) != "" ==>
      HasStructFirst(d) && FieldsSafe(StructFields(d), colInit)
  }

  /** One iteration of the declaration loop: `None` when the declaration contributes no table. */
  function ScanDecl(d: Decl, colInit: ColumnInit): (r: Result<Option<Table>, Error>)
    requires DeclSafe(d, colInit)
    ensures !IsMarked(d) ==> r == Ok(None)
    ensures IsMarked(d) && FirstTypeName(d.specs).None? ==> r == Err(MissingTableName)
    ensures r.Ok? && r.value.Some? ==>
      IsMarked(d) && FirstTypeName(d.specs) == Some(r.value.value.name)
      && r.value.value.name != "" && |r.value.value.columns| > 0
  {
    if !IsMarked(d) then Ok(None)
    else
      var name := TableName(d);
      if name == "" then Err(MissingTableName)
      else
        match ScanFields(Table(name, [], [], false, ""), StructFields(d), colInit)
        case Err(e) => Err(e)
        case Ok(t) => if |t.columns| > 0 then Ok(Some(t)) else Ok(None)
  }

  /** The declarations Go reaches are safe: the walk stops at the first one that fails. */
  predicate DeclsSafe(decls: seq<Decl>, colInit: ColumnInit) {
    decls == [] ||
    (DeclSafe(decls[0], colInit) && (ScanDecl(decls[0], colInit).Ok? ==> DeclsSafe(decls[1..], colInit)))
  }

  /** The declaration loop, appending to the receiver's `tables`; on an error the tables kept so
      far stay in the receiver. */
  function ScanDecls(tables: seq<Table>, decls: seq<Decl>, colInit: ColumnInit): (r: (seq<Table>, Option<Error>))
    requires DeclsSafe(decls, colInit)
    ensures tables <= r.0
    ensures forall k :: |tables| <= k < |r.0| ==> |r.0[k].columns| > 0
    decreases |decls|
  {
    if decls == [] then (tables, None)
    else
      var step := ScanDecl(decls[0], colInit);
      if step.Err? then (tables, Some(step.error))
      else if step.value.None? then ScanDecls(tables, decls[1..], colInit)
      else
        var t := step.value.value;
        var r := ScanDecls(tables + [t], decls[1..], colInit);
        assert tables <= tables + [t];
        assert r.0[|tables|] == t;
        r
  }

  /** `InputFile.Init` applied to the receiver `i`, over the file parsed from `path`. */
  function Init(i: InputFile, path: string, f: SourceFile, colInit: ColumnInit): (r: Outcome)
    requires HasSuffix(path, GoExt) ==> DeclsSafe(f.decls, colInit)
    ensures !HasSuffix(path, GoExt) ==> r == Outcome(i, Some(NotGoFile(path)))
    ensures HasSuffix(path, GoExt) ==>
      && HasSuffix(r.file.buildTarget, TargetSuffix)
      && r.file.buildTarget[..|r.file.buildTarget| - |TargetSuffix|] + GoExt == path
      && r.file.packageName == (if f.packageName.Some? then f.packageName.value else i.packageName)
      && i.tables <= r.file.tables
      && forall k :: |i.tables| <= k < |r.file.tables| ==> |r.file.tables[k].columns| > 0
  {
    match BuildTarget(path)
    case Err(e) => Outcome(i, Some(e))
    case Ok(target) =>
      var pkg := if f.packageName.Some? then f.packageName.value else i.packageName;
      var (tables, err) := ScanDecls(i.tables, f.decls, colInit);
      Outcome(InputFile(pkg, target, tables), err)
  }
}
