/** The repository's example models file, example/models.go, given to `Init` as input: the
    `User` and `Profile` declarations field by field, the declaration walk over the whole file,
    a tagged `*sql.DB` field, and a field loop that stops at a rejected tag. */
module ExampleModels {
  import opened Results
  import opened Text
  import opened Templates
  import opened Input
  import opened ScannerProps

  /** `tabler:"<payload>"` as a raw (backquoted) tag literal. */
  function RawTag(payload: string): string {
    "`" + TagOpen + payload + "\"`"
  }

  /** A tagged, non-connection field as written in a struct: one name, a type, a raw tag. */
  function TaggedField(name: string, typ: TypeExpr, payload: string): Field {
    Field([name], typ, Some(RawTag(payload)))
  }

  /** The payload of a raw tag literal whose payload is made of class characters is that
      payload. */
  lemma RawTagPayload(payload: string)
    requires AllInTagClass(payload)
    ensures TagPayload(RawTag(payload)) == Some(payload)
  {
    var tag := RawTag(payload);
    var w := TagOpen + payload + "\"";
    assert tag[1..1 + |w|] == w;
    assert MatchesAt(tag, 1, payload);
    forall j: nat, q | j < 1 ensures !MatchesAt(tag, j, q) {
      assert tag[0] == '`';
    }
    assert LeftmostMatch(tag, 1, payload);
    TagPayloadComplete(tag, 1, payload);
  }

  /** `type User struct { ID string; Email string; Created time.Time }`, marked `@table`, with
      one tabler tag per field. In example/models.go the payloads are
      `columnType=uuid&primary=true`, `columnType=varchar(128)` and `columnType=timestamp`; they
      are kept as parameters here so the proofs need not evaluate the scanner on literals. */
  function UserDecl(idTag: string, emailTag: string, createdTag: string): Decl {
    GenDecl(
      Some(["// User stores user account information.", "// @table"]),
      [TypeSpec(Some("User"), StructType([
        TaggedField("ID", Plain(Ident("string")), idTag),
        TaggedField("Email", Plain(Ident("string")), emailTag),
        TaggedField("Created", Plain(Selector("time", "Time")), createdTag)]))])
  }

  /** A named, non-connection field with a raw tabler tag adds `col.init`'s Column. */
  lemma TaggedFieldStep(t: Table, name: string, typ: TypeExpr, payload: string, colInit: ColumnInit, c: Column)
    requires AllInTagClass(payload) && FieldType(typ) != ConnType
    requires colInit(name, FieldType(typ), payload) == Ok(c)
    ensures FieldSafe(TaggedField(name, typ, payload))
    ensures ScanField(t, TaggedField(name, typ, payload), colInit) == Ok(AddColumn(t, c))
  {
    RawTagPayload(payload);
  }

  /** The payloads of example/models.go are made of class characters, so `UserTable` applies
      to them. */
  lemma ExamplePayloadsInClass()
    ensures AllInTagClass("columnType=uuid&primary=true")
    ensures AllInTagClass("columnType=varchar(128)")
    ensures AllInTagClass("columnType=timestamp")
  {
  }

  /** The doc comment of `User` carries the marker and its type is named. */
  lemma UserMarked(idTag: string, emailTag: string, createdTag: string)
    ensures var d := UserDecl(idTag, emailTag, createdTag);
      IsMarked(d) && TableName(d) == "User"
  {
    var line := UserDecl(idTag, emailTag, createdTag).doc.value[1];
    assert OccursAt(line, Marker, 3);
    assert Contains(line, Marker);
  }

  /** The field loop over a tagged field followed by more fields: `col.init`'s Column for the
      first field is added before the rest are scanned. */
  lemma TaggedFieldCons(t: Table, name: string, typ: TypeExpr, payload: string, rest: seq<Field>,
                        colInit: ColumnInit, c: Column)
    requires AllInTagClass(payload) && FieldType(typ) != ConnType
    requires colInit(name, FieldType(typ), payload) == Ok(c)
    requires FieldsSafe(rest, colInit)
    ensures var fs := [TaggedField(name, typ, payload)] + rest;
      FieldsSafe(fs, colInit) && ScanFields(t, fs, colInit) == ScanFields(AddColumn(t, c), rest, colInit)
  {
    var fs := [TaggedField(name, typ, payload)] + rest;
    TaggedFieldStep(t, name, typ, payload, colInit, c);
    assert fs[0] == TaggedField(name, typ, payload) && fs[1..] == rest;
    ScanFieldsCons(t, fs, colInit);
  }

  /** The `string` type prints as itself and is not `*sql.DB`. */
  lemma StringType() ensures FieldType(Plain(Ident("string"))) == "string" != ConnType {
    IdentTypeIsName("string");
    assert "string"[0] != ConnType[0];
  }

  /** The `time.Time` selector type is not `*sql.DB`. */
  lemma TimeType() ensures FieldType(Plain(Selector("time", "Time"))) == "time.Time" != ConnType {
    TimeIdents();
    SelectorTypeIsDotted("time", "Time");
    PlainSelectorNotConn("time", "Time");
    TimeSpelled();
  }

  /** A marked, named struct declaration whose fields scan to a non-empty table yields it. */
  lemma MarkedStructScan(d: Decl, colInit: ColumnInit, t: Table)
    requires IsMarked(d) && HasStructFirst(d) && FieldsSafe(StructFields(d), colInit)
    requires TableName(d) == t.name != ""
    requires ScanFields(Table(t.name, [], [], false, ""), StructFields(d), colInit) == Ok(t)
    requires |t.columns| > 0
    ensures DeclSafe(d, colInit) && ScanDecl(d, colInit) == Ok(Some(t))
  {
  }

  /** The field loop over two tagged fields and then `rest`. */
  lemma TwoTaggedFields(t: Table, n1: string, ty1: TypeExpr, p1: string, c1: Column,
                        n2: string, ty2: TypeExpr, p2: string, c2: Column,
                        rest: seq<Field>, colInit: ColumnInit)
    requires AllInTagClass(p1) && FieldType(ty1) != ConnType && colInit(n1, FieldType(ty1), p1) == Ok(c1)
    requires AllInTagClass(p2) && FieldType(ty2) != ConnType && colInit(n2, FieldType(ty2), p2) == Ok(c2)
    requires FieldsSafe(rest, colInit)
    ensures var fs := [TaggedField(n1, ty1, p1)] + ([TaggedField(n2, ty2, p2)] + rest);
      FieldsSafe(fs, colInit) && ScanFields(t, fs, colInit) == ScanFields(AddColumn(AddColumn(t, c1), c2), rest, colInit)
  {
    TaggedFieldCons(AddColumn(t, c1), n2, ty2, p2, rest, colInit, c2);
    TaggedFieldCons(t, n1, ty1, p1, [TaggedField(n2, ty2, p2)] + rest, colInit, c1);
  }

  /** The field loop over a single tagged field adds `col.init`'s Column for it. */
  lemma LastTaggedField(t: Table, name: string, typ: TypeExpr, payload: string, colInit: ColumnInit, c: Column)
    requires AllInTagClass(payload) && FieldType(typ) != ConnType
    requires colInit(name, FieldType(typ), payload) == Ok(c)
    ensures FieldsSafe([TaggedField(name, typ, payload)], colInit)
    ensures ScanFields(t, [TaggedField(name, typ, payload)], colInit) == Ok(AddColumn(t, c))
  {
    TaggedFieldCons(t, name, typ, payload, [], colInit, c);
    assert [TaggedField(name, typ, payload)] + [] == [TaggedField(name, typ, payload)];
  }

  /** The field loop over three tagged fields adds their three Columns in order. */
  lemma ThreeTaggedFields(t: Table, n1: string, ty1: TypeExpr, p1: string, c1: Column,
                          n2: string, ty2: TypeExpr, p2: string, c2: Column,
                          n3: string, ty3: TypeExpr, p3: string, c3: Column, colInit: ColumnInit)
    requires AllInTagClass(p1) && FieldType(ty1) != ConnType && colInit(n1, FieldType(ty1), p1) == Ok(c1)
    requires AllInTagClass(p2) && FieldType(ty2) != ConnType && colInit(n2, FieldType(ty2), p2) == Ok(c2)
    requires AllInTagClass(p3) && FieldType(ty3) != ConnType && colInit(n3, FieldType(ty3), p3) == Ok(c3)
    ensures var fs := [TaggedField(n1, ty1, p1), TaggedField(n2, ty2, p2), TaggedField(n3, ty3, p3)];
      FieldsSafe(fs, colInit) && ScanFields(t, fs, colInit) == Ok(AddColumn(AddColumn(AddColumn(t, c1), c2), c3))
  {
    var f1, f2, f3 := TaggedField(n1, ty1, p1), TaggedField(n2, ty2, p2), TaggedField(n3, ty3, p3);
    LastTaggedField(AddColumn(AddColumn(t, c1), c2), n3, ty3, p3, colInit, c3);
    TwoTaggedFields(t, n1, ty1, p1, c1, n2, ty2, p2, c2, [f3], colInit);
    ThreeCons(f1, f2, f3);
  }

  lemma ThreeCons<T>(a: T, b: T, c: T)
    ensures [a, b, c] == [a] + ([b] + [c])
  {
  }

  /** Adding the three Columns in turn, only the first of them primary, to an empty `User`. */
  lemma UserColumns(id: Column, email: Column, created: Column)
    requires id.isPrimary && !email.isPrimary && !created.isPrimary
    ensures AddColumn(AddColumn(AddColumn(Table("User", [], [], false, ""), id), email), created) ==
      Table("User", [id, email, created], [id], false, "")
  {
    var t1 := AddColumn(Table("User", [], [], false, ""), id);
    assert t1.columns == [id] && t1.primaryKeys == [id];
    var t2 := AddColumn(t1, email);
    assert t2.columns == [id, email];
  }

  /** The field loop over `User` hands each field's name, printed type and payload to
      `col.init` and collects the three Columns, the primary one as the primary key. */
  lemma UserFields(idTag: string, emailTag: string, createdTag: string, colInit: ColumnInit,
                   id: Column, email: Column, created: Column)
    requires AllInTagClass(idTag) && AllInTagClass(emailTag) && AllInTagClass(createdTag)
    requires colInit("ID", "string", idTag) == Ok(id) && id.isPrimary
    requires colInit("Email", "string", emailTag) == Ok(email) && !email.isPrimary
    requires colInit("Created", "time.Time", createdTag) == Ok(created) && !created.isPrimary
    ensures var d := UserDecl(idTag, emailTag, createdTag);
      HasStructFirst(d) && FieldsSafe(StructFields(d), colInit)
      && ScanFields(Table("User", [], [], false, ""), StructFields(d), colInit) ==
         Ok(Table("User", [id, email, created], [id], false, ""))
  {
    var t0 := Table("User", [], [], false, "");
    StringType();
    TimeType();
    ThreeTaggedFields(t0, "ID", Plain(Ident("string")), idTag, id,
                      "Email", Plain(Ident("string")), emailTag, email,
                      "Created", Plain(Selector("time", "Time")), createdTag, created, colInit);
    UserColumns(id, email, created);
  }

  /** With tags whose payloads are made of class characters and a `col.init` that accepts
      them and marks only the `ID` column primary, `User` yields a table whose Columns are
      ID, Email and Created, in that order, whose primary keys are ID alone, and which has no
      connection field. */
  lemma UserTable(idTag: string, emailTag: string, createdTag: string, colInit: ColumnInit,
                  id: Column, email: Column, created: Column)
    requires AllInTagClass(idTag) && AllInTagClass(emailTag) && AllInTagClass(createdTag)
    requires colInit("ID", "string", idTag) == Ok(id) && id.isPrimary
    requires colInit("Email", "string", emailTag) == Ok(email) && !email.isPrimary
    requires colInit("Created", "time.Time", createdTag) == Ok(created) && !created.isPrimary
    ensures DeclSafe(UserDecl(idTag, emailTag, createdTag), colInit)
    ensures ScanDecl(UserDecl(idTag, emailTag, createdTag), colInit) ==
      Ok(Some(Table("User", [id, email, created], [id], false, "")))
  {
    UserMarked(idTag, emailTag, createdTag);
    UserFields(idTag, emailTag, createdTag, colInit, id, email, created);
    MarkedStructScan(UserDecl(idTag, emailTag, createdTag), colInit, Table("User", [id, email, created], [id], false, ""));
  }

  /** `type Profile struct { UserID string; Attribute string; Value string }`, marked `@table`,
      with one tabler tag per field (`columnType=uuid&primary=true`,
      `columnType=varchar(64)&primary=true` and `columnType=varchar(256)` in example/models.go). */
  function ProfileDecl(userTag: string, attrTag: string, valueTag: string): Decl {
    GenDecl(
      Some(["// Profile stores user attributes.", "// @table"]),
      [TypeSpec(Some("Profile"), StructType([
        TaggedField("UserID", Plain(Ident("string")), userTag),
        TaggedField("Attribute", Plain(Ident("string")), attrTag),
        TaggedField("Value", Plain(Ident("string")), valueTag)]))])
  }

  lemma ProfileMarked(userTag: string, attrTag: string, valueTag: string)
    ensures var d := ProfileDecl(userTag, attrTag, valueTag);
      IsMarked(d) && TableName(d) == "Profile"
  {
    var line := ProfileDecl(userTag, attrTag, valueTag).doc.value[1];
    assert OccursAt(line, Marker, 3);
    assert Contains(line, Marker);
  }

  /** Adding the three Columns in turn, the first two of them primary, to an empty `Profile`. */
  lemma ProfileColumns(user: Column, attr: Column, value: Column)
    requires user.isPrimary && attr.isPrimary && !value.isPrimary
    ensures AddColumn(AddColumn(AddColumn(Table("Profile", [], [], false, ""), user), attr), value) ==
      Table("Profile", [user, attr, value], [user, attr], false, "")
  {
    var t1 := AddColumn(Table("Profile", [], [], false, ""), user);
    assert t1.columns == [user] && t1.primaryKeys == [user];
    var t2 := AddColumn(t1, attr);
    assert t2.columns == [user, attr] && t2.primaryKeys == [user, attr];
  }

  lemma ProfileFields(userTag: string, attrTag: string, valueTag: string, colInit: ColumnInit,
                      user: Column, attr: Column, value: Column)
    requires AllInTagClass(userTag) && AllInTagClass(attrTag) && AllInTagClass(valueTag)
    requires colInit("UserID", "string", userTag) == Ok(user) && user.isPrimary
    requires colInit("Attribute", "string", attrTag) == Ok(attr) && attr.isPrimary
    requires colInit("Value", "string", valueTag) == Ok(value) && !value.isPrimary
    ensures var d := ProfileDecl(userTag, attrTag, valueTag);
      HasStructFirst(d) && FieldsSafe(StructFields(d), colInit)
      && ScanFields(Table("Profile", [], [], false, ""), StructFields(d), colInit) ==
         Ok(Table("Profile", [user, attr, value], [user, attr], false, ""))
  {
    StringType();
    ThreeTaggedFields(Table("Profile", [], [], false, ""), "UserID", Plain(Ident("string")), userTag, user,
                      "Attribute", Plain(Ident("string")), attrTag, attr,
                      "Value", Plain(Ident("string")), valueTag, value, colInit);
    ProfileColumns(user, attr, value);
  }

  /** With a `col.init` that marks the UserID and Attribute columns primary, `Profile` yields a
      table with two primary keys, in field order. */
  lemma ProfileTable(userTag: string, attrTag: string, valueTag: string, colInit: ColumnInit,
                     user: Column, attr: Column, value: Column)
    requires AllInTagClass(userTag) && AllInTagClass(attrTag) && AllInTagClass(valueTag)
    requires colInit("UserID", "string", userTag) == Ok(user) && user.isPrimary
    requires colInit("Attribute", "string", attrTag) == Ok(attr) && attr.isPrimary
    requires colInit("Value", "string", valueTag) == Ok(value) && !value.isPrimary
    ensures DeclSafe(ProfileDecl(userTag, attrTag, valueTag), colInit)
    ensures ScanDecl(ProfileDecl(userTag, attrTag, valueTag), colInit) ==
      Ok(Some(Table("Profile", [user, attr, value], [user, attr], false, "")))
  {
    ProfileMarked(userTag, attrTag, valueTag);
    ProfileFields(userTag, attrTag, valueTag, colInit, user, attr, value);
    MarkedStructScan(ProfileDecl(userTag, attrTag, valueTag), colInit,
                     Table("Profile", [user, attr, value], [user, attr], false, ""));
  }

  /** The declaration walk over a file with one unmarked declaration (the `import "time"`)
      followed by two declarations that each yield a table keeps both tables, in order. */
  lemma WalkTwoTables(tables: seq<Table>, imp: Decl, d1: Decl, d2: Decl, t1: Table, t2: Table,
                      colInit: ColumnInit)
    requires !IsMarked(imp)
    requires DeclSafe(d1, colInit) && ScanDecl(d1, colInit) == Ok(Some(t1))
    requires DeclSafe(d2, colInit) && ScanDecl(d2, colInit) == Ok(Some(t2))
    ensures DeclsSafe([imp, d1, d2], colInit)
    ensures ScanDecls(tables, [imp, d1, d2], colInit) == (tables + [t1, t2], None)
  {
    DeclsCons(tables + [t1], d2, [], colInit);
    assert [d2] + [] == [d2];
    DeclsCons(tables, d1, [d2], colInit);
    assert [d1] + [d2] == [d1, d2];
    DeclsCons(tables, imp, [d1, d2], colInit);
    assert [imp] + [d1, d2] == [imp, d1, d2];
    assert tables + [t1] + [t2] == tables + [t1, t2];
  }

  /** The declaration walk over a declaration that succeeds, then the rest. */
  lemma DeclsCons(tables: seq<Table>, d: Decl, rest: seq<Decl>, colInit: ColumnInit)
    requires DeclSafe(d, colInit) && ScanDecl(d, colInit).Ok? && DeclsSafe(rest, colInit)
    ensures DeclsSafe([d] + rest, colInit)
    ensures var step := ScanDecl(d, colInit).value;
      ScanDecls(tables, [d] + rest, colInit) ==
        ScanDecls(if step.Some? then tables + [step.value] else tables, rest, colInit)
  {
    assert ([d] + rest)[0] == d && ([d] + rest)[1..] == rest;
  }

  /** `Init` on example/models.go: the package name is `models`, and the receiver gains the
      `User` table and then the `Profile` table, with no error. */
  lemma ExampleFile(i: InputFile, path: string, colInit: ColumnInit,
                    idTag: string, emailTag: string, createdTag: string,
                    id: Column, email: Column, created: Column,
                    userTag: string, attrTag: string, valueTag: string,
                    user: Column, attr: Column, value: Column)
    requires HasSuffix(path, GoExt)
    requires AllInTagClass(idTag) && AllInTagClass(emailTag) && AllInTagClass(createdTag)
    requires colInit("ID", "string", idTag) == Ok(id) && id.isPrimary
    requires colInit("Email", "string", emailTag) == Ok(email) && !email.isPrimary
    requires colInit("Created", "time.Time", createdTag) == Ok(created) && !created.isPrimary
    requires AllInTagClass(userTag) && AllInTagClass(attrTag) && AllInTagClass(valueTag)
    requires colInit("UserID", "string", userTag) == Ok(user) && user.isPrimary
    requires colInit("Attribute", "string", attrTag) == Ok(attr) && attr.isPrimary
    requires colInit("Value", "string", valueTag) == Ok(value) && !value.isPrimary
    ensures var f := SourceFile(Some("models"), [GenDecl(None, [OtherSpec]),
                                                 UserDecl(idTag, emailTag, createdTag),
                                                 ProfileDecl(userTag, attrTag, valueTag)]);
      DeclsSafe(f.decls, colInit)
      && Init(i, path, f, colInit).err == None
      && Init(i, path, f, colInit).file.packageName == "models"
      && Init(i, path, f, colInit).file.tables ==
           i.tables + [Table("User", [id, email, created], [id], false, ""),
                       Table("Profile", [user, attr, value], [user, attr], false, "")]
  {
    UserTable(idTag, emailTag, createdTag, colInit, id, email, created);
    ProfileTable(userTag, attrTag, valueTag, colInit, user, attr, value);
    WalkTwoTables(i.tables, GenDecl(None, [OtherSpec]),
                  UserDecl(idTag, emailTag, createdTag), ProfileDecl(userTag, attrTag, valueTag),
                  Table("User", [id, email, created], [id], false, ""),
                  Table("Profile", [user, attr, value], [user, attr], false, ""), colInit);
  }

  lemma TimeIdents() ensures IsIdent("time") && IsIdent("Time") {
  }

  lemma TimeSpelled() ensures "time" + "." + "Time" == "time.Time" {
  }

  /** `*sql.DB` prints as the connection type. */
  lemma SqlDBType() ensures FieldType(Star(Selector("sql", "DB"))) == ConnType {
    SelectorTypeIsDotted("sql", "DB");
    ConnTypeSpelled();
  }

  /** A tagged `*sql.DB` field is recorded as the connection and, since the tag check follows
      the connection check without an `else`, also becomes a Column. */
  lemma TaggedConnFieldIsColumn(t: Table, name: string, payload: string, colInit: ColumnInit, c: Column)
    requires AllInTagClass(payload)
    requires colInit(name, ConnType, payload) == Ok(c)
    ensures var f := TaggedField(name, Star(Selector("sql", "DB")), payload);
      FieldSafe(f) && IsConnField(f)
      && ScanField(t, f, colInit) == Ok(AddColumn(t.(hasConn := true, conn := name), c))
  {
    SqlDBType();
    RawTagPayload(payload);
  }

  /** A tagged field `col.init` rejects stops the field loop with the tag's error. */
  lemma RejectedFieldStep(t: Table, name: string, typ: TypeExpr, payload: string, colInit: ColumnInit, cause: string)
    requires AllInTagClass(payload)
    requires colInit(name, FieldType(typ), payload) == Err(cause)
    ensures FieldSafe(TaggedField(name, typ, payload)) && !FieldPasses(TaggedField(name, typ, payload), colInit)
    ensures ScanField(t, TaggedField(name, typ, payload), colInit) == Err(BadTag(payload, cause))
  {
    var f := TaggedField(name, typ, payload);
    RawTagPayload(payload);
    assert f.tag.value == RawTag(payload) && f.names == [name];
    TaggedFieldIs(f, name, FieldType(typ), payload);
  }

  /** A field with a name and a tag whose payload `col.init` sees. */
  lemma TaggedFieldIs(f: Field, name: string, ftype: string, payload: string)
    requires f.names == [name] && f.tag.Some? && TagPayload(f.tag.value) == Some(payload)
    requires FieldType(f.typ) == ftype
    ensures FieldSafe(f) && HasTablerTag(f)
    ensures ColumnArgs(f) == (name, ftype, payload)
  {
  }

  /** A tagged field `col.init` rejects ends the field loop with the tag's error, whatever
      fields follow it, safe or not. */
  lemma RejectedTaggedField(t: Table, name: string, typ: TypeExpr, payload: string, rest: seq<Field>,
                            colInit: ColumnInit, cause: string)
    requires AllInTagClass(payload)
    requires colInit(name, FieldType(typ), payload) == Err(cause)
    ensures var fs := [TaggedField(name, typ, payload)] + rest;
      FieldsSafe(fs, colInit) && ScanFields(t, fs, colInit) == Err(BadTag(payload, cause))
  {
    var fs := [TaggedField(name, typ, payload)] + rest;
    RejectedFieldStep(t, name, typ, payload, colInit, cause);
    assert fs[0] == TaggedField(name, typ, payload);
    ScanFieldsCons(t, fs, colInit);
  }

  /** A declaration whose doc comment is the single line `// @table` carries the marker. */
  lemma MarkerOnlyDoc(specs: seq<Spec>)
    ensures IsMarked(GenDecl(Some(["// @table"]), specs))
  {
    assert OccursAt("// @table", Marker, 3);
    assert Contains("// @table", Marker);
    assert ["// @table"][0] == "// @table";
  }

  /** A marked, named struct declaration whose field loop fails fails with that error. */
  lemma MarkedStructFails(d: Decl, colInit: ColumnInit, e: Error)
    requires IsMarked(d) && HasStructFirst(d) && TableName(d) != ""
    requires FieldsSafe(StructFields(d), colInit)
    requires ScanFields(Table(TableName(d), [], [], false, ""), StructFields(d), colInit) == Err(e)
    ensures DeclSafe(d, colInit) && ScanDecl(d, colInit) == Err(e)
  {
  }

  /** `Init` on a Go file whose one declaration fails returns that error and adds no table. */
  lemma InitOneFailingDecl(i: InputFile, path: string, pkg: Option<string>, d: Decl, colInit: ColumnInit, e: Error)
    requires HasSuffix(path, GoExt)
    requires DeclSafe(d, colInit) && ScanDecl(d, colInit) == Err(e)
    ensures DeclsSafe([d], colInit)
    ensures Init(i, path, SourceFile(pkg, [d]), colInit).err == Some(e)
    ensures Init(i, path, SourceFile(pkg, [d]), colInit).file.tables == i.tables
  {
    assert [d][0] == d;
  }

  /** A struct marked by the single doc line `// @table`, named `name`, with the given fields. */
  function MarkedStruct(name: string, fields: seq<Field>): Decl {
    GenDecl(Some(["// @table"]), [TypeSpec(Some(name), StructType(fields))])
  }

  lemma MarkedStructNamed(name: string, fields: seq<Field>)
    requires name != ""
    ensures var d := MarkedStruct(name, fields);
      IsMarked(d) && HasStructFirst(d) && TableName(d) == name && StructFields(d) == fields
  {
    MarkerOnlyDoc(MarkedStruct(name, fields).specs);
  }

  /** A marked struct whose first tagged field `col.init` rejects: whatever fields follow, the
      loop never reads them, and `Init` returns the tag's error, adding no table. */
  lemma RejectedTagFirst(i: InputFile, path: string, name: string, fname: string, typ: TypeExpr,
                         payload: string, rest: seq<Field>, colInit: ColumnInit, cause: string)
    requires HasSuffix(path, GoExt) && name != "" && AllInTagClass(payload)
    requires colInit(fname, FieldType(typ), payload) == Err(cause)
    ensures var d := MarkedStruct(name, [TaggedField(fname, typ, payload)] + rest);
      && DeclSafe(d, colInit)
      && ScanDecl(d, colInit) == Err(BadTag(payload, cause))
      && Init(i, path, SourceFile(None, [d]), colInit).err == Some(BadTag(payload, cause))
      && Init(i, path, SourceFile(None, [d]), colInit).file.tables == i.tables
  {
    var d := MarkedStruct(name, [TaggedField(fname, typ, payload)] + rest);
    var e := BadTag(payload, cause);
    MarkedStructNamed(name, [TaggedField(fname, typ, payload)] + rest);
    RejectedTaggedField(Table(name, [], [], false, ""), fname, typ, payload, rest, colInit, cause);
    MarkedStructFails(d, colInit, e);
    InitOneFailingDecl(i, path, None, d, colInit, e);
  }

  /** An embedded `*sql.DB` field has no name to read. */
  lemma EmbeddedConnUnsafe()
    ensures !FieldSafe(Field([], Star(Selector("sql", "DB")), None))
  {
    SqlDBType();
  }

  /** A marked struct whose first tagged field `col.init` rejects, followed by an embedded
      `*sql.DB`: the field loop stops at the rejection and never reads the embedded field's
      names, so Go does not panic and `Init` returns the tag's error, adding no table. */
  lemma RejectedTagStopsFieldLoop(i: InputFile, path: string, name: string, fname: string,
                                  typ: TypeExpr, payload: string, colInit: ColumnInit, cause: string)
    requires HasSuffix(path, GoExt) && name != "" && AllInTagClass(payload)
    requires colInit(fname, FieldType(typ), payload) == Err(cause)
    ensures var d := MarkedStruct(name, [TaggedField(fname, typ, payload), Field([], Star(Selector("sql", "DB")), None)]);
      && !AllFieldsSafe(StructFields(d))
      && DeclSafe(d, colInit)
      && ScanDecl(d, colInit) == Err(BadTag(payload, cause))
      && Init(i, path, SourceFile(None, [d]), colInit).err == Some(BadTag(payload, cause))
      && Init(i, path, SourceFile(None, [d]), colInit).file.tables == i.tables
  {
    var embedded := Field([], Star(Selector("sql", "DB")), None);
    var fields := [TaggedField(fname, typ, payload), embedded];
    EmbeddedConnUnsafe();
    assert fields[1] == embedded;
    assert fields == [TaggedField(fname, typ, payload)] + [embedded];
    RejectedTagFirst(i, path, name, fname, typ, payload, [embedded], colInit, cause);
  }
}
