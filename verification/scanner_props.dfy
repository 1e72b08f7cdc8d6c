/** Properties of the annotation scanner: type normalisation, columns and primary keys, the
    connection field, and the order and error behaviour of the declaration walk. */
module ScannerProps {
  import opened Results
  import opened Text
  import opened Templates
  import opened Input

  // ---------------------------------------------------------------------------
  // Field types

  /** A character of a Go identifier: an ASCII letter, digit or underscore, or a non-ASCII
      letter. */
  predicate IdentChar(c: char) {
    'a' <= c <= 'z' || 'A' <= c <= 'Z' || '0' <= c <= '9' || c == '_' || c as int >= 0x80
  }

  predicate IsIdent(n: string) {
    |n| > 0 && forall i :: 0 <= i < |n| ==> IdentChar(n[i])
  }

  predicate WellFormedType(t: TypeExpr) {
    var b := if t.Plain? then t.base else t.elem;
    match b
    case Ident(n) => IsIdent(n)
    case Selector(p, s) => IsIdent(p) && IsIdent(s)
  }

  /** An identifier's type is its own name. */
  lemma IdentTypeIsName(n: string)
    requires IsIdent(n)
    ensures FieldType(Plain(Ident(n))) == n
    ensures FieldType(Star(Ident(n))) == "*" + n
  {
    assert !HasPrefix(n, "&{") by { assert n[0] != '&'; }
    assert !HasSuffix(n, "}") by { assert n[|n| - 1] != '}'; }
    assert SpacesToDots(n) == n;
  }

  /** A qualified type `pkg.Sel`, whose `%v` rendering is `&{pkg Sel}`, becomes `pkg.Sel`. */
  lemma SelectorTypeIsDotted(p: string, s: string)
    requires IsIdent(p) && IsIdent(s)
    ensures FieldType(Plain(Selector(p, s))) == p + "." + s
    ensures FieldType(Star(Selector(p, s))) == "*" + p + "." + s
  {
    SelectorUnwrapped(p, s);
    SpaceBecomesDot(p, s);
    assert "*" + (p + "." + s) == "*" + p + "." + s;
  }

  /** Trimming `&{` and `}` from the rendering leaves the two names separated by a space. */
  lemma SelectorUnwrapped(p: string, s: string)
    ensures TrimSuffix(TrimPrefix(Render(Selector(p, s)), "&{"), "}") == p + " " + s
  {
    var rendered := "&{" + p + " " + s + "}";
    var inner := p + " " + s + "}";
    assert rendered == "&{" + inner;
    assert HasPrefix(rendered, "&{") by { assert rendered[..2] == "&{"; }
    assert TrimPrefix(rendered, "&{") == inner;
    assert inner == (p + " " + s) + "}";
    assert HasSuffix(inner, "}") by { assert inner[|inner| - 1..] == "}"; }
  }

  /** The one space between two identifiers becomes a dot. */
  lemma SpaceBecomesDot(p: string, s: string)
    requires IsIdent(p) && IsIdent(s)
    ensures SpacesToDots(p + " " + s) == p + "." + s
  {
    var spaced := p + " " + s;
    var dotted := SpacesToDots(spaced);
    assert |dotted| == |p + "." + s|;
    forall i | 0 <= i < |dotted| ensures dotted[i] == (p + "." + s)[i] {
      if i < |p| {
        assert spaced[i] == p[i];
      } else if i > |p| {
        assert spaced[i] == s[i - |p| - 1];
      }
    }
  }

  /** The only dotted pair of identifiers spelling `sql.DB` is `sql` and `DB`. */
  lemma DottedSqlDB(p: string, s: string)
    requires IsIdent(p) && IsIdent(s) && p + "." + s == ConnType[1..]
    ensures p == "sql" && s == "DB"
  {
    var d := p + "." + s;
    assert d[|p|] == '.';
    assert |p| == 3;
    assert p == d[..3] && s == d[4..];
  }

  /** No identifier spells `sql.DB`. */
  lemma NotDottedIdent(n: string)
    requires IsIdent(n)
    ensures n != ConnType[1..]
  {
    assert ConnType[1..][3] == '.';
  }

  /** A well-formed field type is the connection type exactly when it is `*sql.DB`. */
  lemma ConnTypeIff(t: TypeExpr)
    requires WellFormedType(t)
    ensures IsConnField(Field([], t, None)) <==> t == Star(Selector("sql", "DB"))
  {
    match t
    case Plain(Ident(n)) => PlainIdentNotConn(n);
    case Plain(Selector(p, s)) => PlainSelectorNotConn(p, s);
    case Star(Ident(n)) => StarIdentNotConn(n);
    case Star(Selector(p, s)) => StarSelectorConn(p, s);
  }

  lemma PlainIdentNotConn(n: string)
    requires IsIdent(n)
    ensures FieldType(Plain(Ident(n))) != ConnType
  {
    IdentTypeIsName(n);
    assert n[0] != ConnType[0];
  }

  lemma PlainSelectorNotConn(p: string, s: string)
    requires IsIdent(p) && IsIdent(s)
    ensures FieldType(Plain(Selector(p, s))) != ConnType
  {
    SelectorTypeIsDotted(p, s);
    assert (p + "." + s)[0] == p[0] != ConnType[0];
  }

  lemma StarIdentNotConn(n: string)
    requires IsIdent(n)
    ensures FieldType(Star(Ident(n))) != ConnType
  {
    IdentTypeIsName(n);
    NotDottedIdent(n);
    assert ("*" + n)[1..] == n;
  }

  lemma StarSelectorConn(p: string, s: string)
    requires IsIdent(p) && IsIdent(s)
    ensures FieldType(Star(Selector(p, s))) == ConnType <==> p == "sql" && s == "DB"
  {
    SelectorTypeIsDotted(p, s);
    if FieldType(Star(Selector(p, s))) == ConnType {
      assert ("*" + p + "." + s)[1..] == p + "." + s;
      DottedSqlDB(p, s);
    } else if p == "sql" && s == "DB" {
      ConnTypeSpelled();
    }
  }

  lemma ConnTypeSpelled()
    ensures "*" + "sql" + "." + "DB" == ConnType
  {
  }

  // ---------------------------------------------------------------------------
  // The marker

  /** A declaration is marked exactly when it is a general declaration with a doc comment one
      of whose lines holds `@table` at some position; other declarations and declarations
      without a doc comment never are. */
  lemma MarkedIff(d: Decl)
    ensures IsMarked(d) <==>
      && d.GenDecl? && d.doc.Some?
      && exists k: nat, i: nat :: k < |d.doc.value| && OccursAt(d.doc.value[k], Marker, i)
  {
    if d.GenDecl? && d.doc.Some? {
      var lines := d.doc.value;
      if exists k: nat, i: nat :: k < |lines| && OccursAt(lines[k], Marker, i) {
        var k: nat, i: nat :| k < |lines| && OccursAt(lines[k], Marker, i);
        assert Contains(lines[k], Marker);
      }
    }
  }

  /** A non-empty table name is the name of the first named type spec; a declaration without
      a named type spec has the empty name, which `Init` rejects. */
  lemma TableNameSpec(d: Decl)
    requires d.GenDecl?
    ensures TableName(d) != "" ==>
      exists k :: 0 <= k < |d.specs| && NamedTypeSpec(d.specs[k]) && d.specs[k].name == Some(TableName(d))
        && forall j :: 0 <= j < k ==> !NamedTypeSpec(d.specs[j])
    ensures (forall k :: 0 <= k < |d.specs| ==> !NamedTypeSpec(d.specs[k])) ==> TableName(d) == ""
  {
  }

  // ---------------------------------------------------------------------------
  // Columns and primary keys

  /** The arguments of one `col.init` call: a field name, its type and a tag payload. */
  type InitArgs = (string, string, string)

  /** The arguments `Init` passes to `col.init` for a tagged field: its first name, its
      normalised type and the tag payload. */
  function ColumnArgs(f: Field): InitArgs
    requires HasTablerTag(f) && |f.names| > 0
  {
    (f.names[0], FieldType(f.typ), TagPayload(f.tag.value).value)
  }

  /** The `col.init` arguments of the fields that become Columns: those with a tag the tag
      pattern matches, in declaration order. */
  function TaggedArgs(fields: seq<Field>): seq<InitArgs>
    requires AllFieldsSafe(fields)
  {
    if fields == [] then []
    else if HasTablerTag(fields[0]) then [ColumnArgs(fields[0])] + TaggedArgs(fields[1..])
    else TaggedArgs(fields[1..])
  }

  /** The fields the loop reads: all of them up to and including the first one `col.init`
      rejects. */
  function Reached(fields: seq<Field>, colInit: ColumnInit): (r: seq<Field>)
    requires FieldsSafe(fields, colInit)
    ensures r <= fields
    ensures AllFieldsSafe(r)
    decreases |fields|
  {
    if fields == [] then []
    else
      var f := fields[0];
      FieldsSafeCons(fields, colInit);
      if !FieldPasses(f, colInit) then
        ReachedCons(f, [], fields[1..]);
        [f]
      else
        var rest := Reached(fields[1..], colInit);
        ReachedCons(f, rest, fields[1..]);
        [f] + rest
  }

  lemma FieldsSafeCons(fields: seq<Field>, colInit: ColumnInit)
    requires FieldsSafe(fields, colInit) && fields != []
    ensures FieldSafe(fields[0])
    ensures FieldPasses(fields[0], colInit) ==> FieldsSafe(fields[1..], colInit)
    ensures fields == [fields[0]] + fields[1..]
  {
  }

  lemma ReachedCons(f: Field, rest: seq<Field>, fields: seq<Field>)
    requires FieldSafe(f) && rest <= fields && AllFieldsSafe(rest)
    ensures [f] + rest <= [f] + fields
    ensures AllFieldsSafe([f] + rest)
    ensures rest == [] ==> [f] + rest == [f]
  {
    var r := [f] + rest;
    forall k | 0 <= k < |r| ensures FieldSafe(r[k]) {
      if k > 0 {
        assert r[k] == rest[k - 1];
      }
    }
  }

  /** The loop reads fields while they pass: every field it reads passes except possibly the
      last, and it stops short of the end only at a field that does not pass. */
  lemma {:induction false} ReachedStops(fields: seq<Field>, colInit: ColumnInit)
    requires FieldsSafe(fields, colInit)
    ensures var r := Reached(fields, colInit);
      && (forall k :: 0 <= k < |r| - 1 ==> FieldPasses(r[k], colInit))
      && (|r| < |fields| ==> r != [] && !FieldPasses(r[|r| - 1], colInit))
    decreases |fields|
  {
    if fields != [] && FieldPasses(fields[0], colInit) {
      var rest := Reached(fields[1..], colInit);
      ReachedStops(fields[1..], colInit);
      var r := Reached(fields, colInit);
      assert r == [fields[0]] + rest;
      assert forall k :: 1 <= k < |r| ==> r[k] == rest[k - 1];
    }
  }

  /** When every field passes, the loop reads them all. */
  lemma ReachedAll(fields: seq<Field>, colInit: ColumnInit)
    requires FieldsSafe(fields, colInit) && AllPass(fields, colInit)
    ensures Reached(fields, colInit) == fields
  {
  }

  /** The columns that are primary keys, in order. */
  function Primaries(cs: seq<Column>): (r: seq<Column>)
    ensures forall k :: 0 <= k < |r| ==> r[k].isPrimary
  {
    if cs == [] then []
    else if cs[0].isPrimary then [cs[0]] + Primaries(cs[1..])
    else Primaries(cs[1..])
  }

  /** `a` is `b` with some elements left out, the rest in their order. */
  ghost predicate IsSubsequence<T>(a: seq<T>, b: seq<T>)
    decreases |b|
  {
    if a == [] then true
    else if b == [] then false
    else (a[0] == b[0] && IsSubsequence(a[1..], b[1..])) || IsSubsequence(a, b[1..])
  }

  /** `col.init` applied to each argument triple in turn, stopping at the first failure. */
  function ColumnsOf(args: seq<InitArgs>, colInit: ColumnInit): Result<seq<Column>, Error> {
    if args == [] then Ok([])
    else
      match colInit(args[0].0, args[0].1, args[0].2)
      case Err(cause) => Err(BadTag(args[0].2, cause))
      case Ok(c) =>
        match ColumnsOf(args[1..], colInit)
        case Err(e) => Err(e)
        case Ok(cs) => Ok([c] + cs)
  }

  /** `r` is the outcome of scanning fields from `t` whose tagged fields `col.init` turns into
      `cols`: the same error, or `t` with those Columns added and the primary ones among them
      added to the primary keys. */
  ghost predicate Agrees(r: Result<Table, Error>, t: Table, cols: Result<seq<Column>, Error>) {
    match cols
    case Err(e) => r == Err(e)
    case Ok(cs) =>
      && r.Ok?
      && r.value.columns == t.columns + cs
      && r.value.primaryKeys == t.primaryKeys + Primaries(cs)
  }

  /** Running two `col.init` passes one after the other, stopping at the first error. */
  function Then(c1: Result<seq<Column>, Error>, c2: Result<seq<Column>, Error>): Result<seq<Column>, Error> {
    match c1
    case Err(e) => Err(e)
    case Ok(a) =>
      match c2
      case Err(e) => Err(e)
      case Ok(b) => Ok(a + b)
  }

  lemma PrimariesAppend(a: seq<Column>, b: seq<Column>)
    ensures Primaries(a + b) == Primaries(a) + Primaries(b)
  {
    if a == [] {
      assert a + b == b;
    } else {
      assert (a + b)[0] == a[0];
      assert (a + b)[1..] == a[1..] + b;
      PrimariesAppend(a[1..], b);
      if a[0].isPrimary {
        assert Primaries(a + b) == [a[0]] + (Primaries(a[1..]) + Primaries(b));
      }
    }
  }

  /** Appending a Column keeps the primary keys the primary subsequence of the columns. */
  lemma AddColumnKeepsPrimaries(t: Table, c: Column)
    requires t.primaryKeys == Primaries(t.columns)
    ensures AddColumn(t, c).primaryKeys == Primaries(AddColumn(t, c).columns)
  {
    PrimariesAppend(t.columns, [c]);
    assert [c][1..] == [];
  }

  lemma AgreesThen(t: Table, step: Result<Table, Error>, c1: Result<seq<Column>, Error>,
                   r: Result<Table, Error>, c2: Result<seq<Column>, Error>)
    requires Agrees(step, t, c1)
    requires step.Ok? ==> Agrees(r, step.value, c2)
    ensures Agrees(if step.Ok? then r else step, t, Then(c1, c2))
  {
    if c1.Ok? && c2.Ok? {
      PrimariesAppend(c1.value, c2.value);
    }
  }

  lemma ColumnsOfCons(a: InitArgs, rest: seq<InitArgs>, colInit: ColumnInit)
    ensures ColumnsOf([a] + rest, colInit) == Then(ColumnsOf([a], colInit), ColumnsOf(rest, colInit))
  {
    assert ([a] + rest)[0] == a && ([a] + rest)[1..] == rest;
    assert [a][1..] == [];
    var r := colInit(a.0, a.1, a.2);
    if r.Ok? {
      assert ColumnsOf([a], colInit) == Ok([r.value]) by {
        assert [r.value] + [] == [r.value];
      }
    }
  }

  /** One field: an untagged field or one the pattern does not match leaves the Columns alone;
      a tagged one adds `col.init`'s Column, and to the primary keys if it is primary, or fails
      with its error; a connection field sets `hasConn` and `conn`. */
  lemma FieldStep(t: Table, f: Field, colInit: ColumnInit)
    requires FieldSafe(f)
    ensures !HasTablerTag(f) ==> Agrees(ScanField(t, f, colInit), t, Ok([]))
    ensures HasTablerTag(f) ==> Agrees(ScanField(t, f, colInit), t, ColumnsOf([ColumnArgs(f)], colInit))
    ensures ScanField(t, f, colInit).Ok? ==>
      && ScanField(t, f, colInit).value.hasConn == (t.hasConn || IsConnField(f))
      && ScanField(t, f, colInit).value.conn == if IsConnField(f) then f.names[0] else t.conn
  {
    FieldStepColumns(t, f, colInit);
    FieldStepConn(t, f, colInit);
  }

  /** `AddColumn` adds one Column, and its primary subsequence to the keys, leaving the
      connection alone. */
  lemma AddColumnAgrees(t: Table, c: Column)
    ensures Agrees(Ok(AddColumn(t, c)), t, Ok([c]))
    ensures AddColumn(t, c).hasConn == t.hasConn && AddColumn(t, c).conn == t.conn
  {
    assert [c][1..] == [];
  }

  lemma FieldStepColumns(t: Table, f: Field, colInit: ColumnInit)
    requires FieldSafe(f)
    ensures !HasTablerTag(f) ==> Agrees(ScanField(t, f, colInit), t, Ok([]))
    ensures HasTablerTag(f) ==> Agrees(ScanField(t, f, colInit), t, ColumnsOf([ColumnArgs(f)], colInit))
  {
    var t1 := if IsConnField(f) then t.(hasConn := true, conn := f.names[0]) else t;
    if HasTablerTag(f) {
      var args := ColumnArgs(f);
      assert [args][1..] == [];
      match colInit(args.0, args.1, args.2)
      case Err(cause) =>
      case Ok(c) =>
        AddColumnAgrees(t1, c);
    }
  }

  lemma FieldStepConn(t: Table, f: Field, colInit: ColumnInit)
    requires FieldSafe(f)
    ensures ScanField(t, f, colInit).Ok? ==>
      && ScanField(t, f, colInit).value.hasConn == (t.hasConn || IsConnField(f))
      && ScanField(t, f, colInit).value.conn == if IsConnField(f) then f.names[0] else t.conn
  {
    var t1 := if IsConnField(f) then t.(hasConn := true, conn := f.names[0]) else t;
    if HasTablerTag(f) {
      var args := ColumnArgs(f);
      match colInit(args.0, args.1, args.2)
      case Err(cause) =>
      case Ok(c) =>
        AddColumnAgrees(t1, c);
    }
  }

  lemma ScanFieldsCons(t: Table, fields: seq<Field>, colInit: ColumnInit)
    requires FieldsSafe(fields, colInit) && fields != []
    ensures FieldSafe(fields[0])
    ensures FieldPasses(fields[0], colInit) ==> FieldsSafe(fields[1..], colInit)
    ensures var step := ScanField(t, fields[0], colInit);
      ScanFields(t, fields, colInit) == if step.Ok? then ScanFields(step.value, fields[1..], colInit) else step
  {
  }

  /** The field loop yields exactly the Columns `col.init` makes of the tagged fields it
      reaches, in declaration order, and the primary ones among them as primary keys; it fails
      with the error of the first tagged field `col.init` rejects, and reads no field after it. */
  lemma {:induction false} ColumnsFromTaggedFields(t: Table, fields: seq<Field>, colInit: ColumnInit)
    requires FieldsSafe(fields, colInit)
    ensures Agrees(ScanFields(t, fields, colInit), t, ColumnsOf(TaggedArgs(Reached(fields, colInit)), colInit))
    decreases |fields|
  {
    if fields == [] {
      assert t.columns + [] == t.columns && t.primaryKeys + [] == t.primaryKeys;
    } else {
      var f := fields[0];
      var rest := fields[1..];
      ScanFieldsCons(t, fields, colInit);
      FieldStep(t, f, colInit);
      var step := ScanField(t, f, colInit);
      var head := if HasTablerTag(f) then [ColumnArgs(f)] else [];
      var c1 := ColumnsOf(head, colInit);
      if FieldPasses(f, colInit) {
        var reached := Reached(fields, colInit);
        assert reached == [f] + Reached(rest, colInit);
        TaggedArgsCons(reached);
        assert reached[0] == f && reached[1..] == Reached(rest, colInit);
        var c2 := ColumnsOf(TaggedArgs(Reached(rest, colInit)), colInit);
        var r := ScanFields(step.value, rest, colInit);
        ColumnsFromTaggedFields(step.value, rest, colInit);
        AgreesThen(t, step, c1, r, c2);
        ColumnsOfAppend(head, TaggedArgs(Reached(rest, colInit)), colInit);
      } else {
        assert Reached(fields, colInit) == [f];
        TaggedArgsCons([f]);
        assert [f][1..] == [];
        assert TaggedArgs([f]) == [ColumnArgs(f)] + [];
      }
    }
  }

  lemma TaggedArgsCons(fields: seq<Field>)
    requires AllFieldsSafe(fields) && fields != []
    ensures AllFieldsSafe(fields[1..])
    ensures TaggedArgs(fields) ==
      (if HasTablerTag(fields[0]) then [ColumnArgs(fields[0])] else []) + TaggedArgs(fields[1..])
  {
    assert forall k :: 0 <= k < |fields[1..]| ==> fields[1..][k] == fields[k + 1];
  }

  /** `col.init` over a head of at most one triple, then over the rest. */
  lemma ColumnsOfAppend(head: seq<InitArgs>, rest: seq<InitArgs>, colInit: ColumnInit)
    requires |head| <= 1
    ensures ColumnsOf(head + rest, colInit) == Then(ColumnsOf(head, colInit), ColumnsOf(rest, colInit))
  {
    if head == [] {
      assert head + rest == rest;
      var c := ColumnsOf(rest, colInit);
      if c.Ok? {
        assert [] + c.value == c.value;
      }
    } else {
      assert head == [head[0]];
      ColumnsOfCons(head[0], rest, colInit);
    }
  }

  /** The primary keys are an order-preserving subsequence of the Columns, and hold every
      primary Column. */
  lemma {:induction false} PrimariesSubsequence(cs: seq<Column>)
    ensures IsSubsequence(Primaries(cs), cs)
    ensures forall k :: 0 <= k < |cs| && cs[k].isPrimary ==> cs[k] in Primaries(cs)
  {
    if cs != [] {
      PrimariesSubsequence(cs[1..]);
      assert forall k :: 1 <= k < |cs| ==> cs[k] == cs[1..][k - 1];
      if cs[0].isPrimary {
        assert Primaries(cs)[1..] == Primaries(cs[1..]);
      } else {
        if Primaries(cs) != [] {
          assert IsSubsequence(Primaries(cs), cs[1..]);
        }
      }
    }
  }

  /** A marked, named declaration fails with the first `col.init` error among its tagged fields;
      otherwise every field was read, and the declaration yields a table exactly when it has a
      tagged field: the table's Columns are those `col.init` makes of the tagged fields, in
      order, with the primary ones, in order, as its primary keys, and its connection is the
      last field of type `*sql.DB`. */
  lemma MarkedDeclTable(d: Decl, colInit: ColumnInit)
    requires DeclSafe(d, colInit) && IsMarked(d) && TableName(d) != ""
    ensures
      var reached := Reached(StructFields(d), colInit);
      match ColumnsOf(TaggedArgs(reached), colInit)
      case Err(e) => ScanDecl(d, colInit) == Err(e)
      case Ok(cs) =>
        && reached == StructFields(d)
        && |cs| == |TaggedArgs(reached)|
        && (cs == [] ==> ScanDecl(d, colInit) == Ok(None))
        && (cs != [] ==>
              && ScanDecl(d, colInit).Ok? && ScanDecl(d, colInit).value.Some?
              && ScanDecl(d, colInit).value.value.name == TableName(d)
              && ScanDecl(d, colInit).value.value.columns == cs
              && ScanDecl(d, colInit).value.value.primaryKeys == Primaries(cs)
              && IsSubsequence(Primaries(cs), cs)
              && ScanDecl(d, colInit).value.value.hasConn == LastIndex(StructFields(d), IsConnField).Some?
              && ScanDecl(d, colInit).value.value.conn == LastConnName(StructFields(d), ""))
  {
    var t0 := Table(TableName(d), [], [], false, "");
    ColumnsFromTaggedFields(t0, StructFields(d), colInit);
    ConnIsLastConnField(t0, StructFields(d), colInit);
    var reached := Reached(StructFields(d), colInit);
    var cs := ColumnsOf(TaggedArgs(reached), colInit);
    if cs.Ok? {
      ReachedAll(StructFields(d), colInit);
      ColumnsOfLength(TaggedArgs(reached), colInit);
      PrimariesSubsequence(cs.value);
    }
  }

  lemma {:induction false} ColumnsOfLength(tagged: seq<InitArgs>, colInit: ColumnInit)
    ensures ColumnsOf(tagged, colInit).Ok? ==> |ColumnsOf(tagged, colInit).value| == |tagged|
    decreases |tagged|
  {
    if tagged != [] {
      ColumnsOfLength(tagged[1..], colInit);
    }
  }

  // ---------------------------------------------------------------------------
  // The connection field

  /** The index of the last element satisfying `p`, searching from the end. */
  function LastIndex<T>(xs: seq<T>, p: T -> bool): (r: Option<nat>)
    ensures r.Some? ==> r.value < |xs| && p(xs[r.value])
    ensures r.Some? ==> forall j :: r.value < j < |xs| ==> !p(xs[j])
    ensures r.None? ==> forall j :: 0 <= j < |xs| ==> !p(xs[j])
  {
    if xs == [] then None
    else if p(xs[|xs| - 1]) then Some(|xs| - 1)
    else LastIndex(xs[..|xs| - 1], p)
  }

  /** Searching from the end of `xs` is searching its tail first, then its head. */
  lemma LastIndexCons<T>(xs: seq<T>, p: T -> bool)
    requires xs != []
    ensures LastIndex(xs, p) ==
      match LastIndex(xs[1..], p)
      case Some(i) => Some(i + 1)
      case None => if p(xs[0]) then Some(0) else None
  {
    var r := LastIndex(xs, p);
    var r' := LastIndex(xs[1..], p);
    if r'.Some? {
      assert xs[r'.value + 1] == xs[1..][r'.value];
      assert forall j :: r'.value + 1 < j < |xs| ==> xs[j] == xs[1..][j - 1];
    } else {
      assert forall j :: 1 <= j < |xs| ==> xs[j] == xs[1..][j - 1];
    }
  }

  /** The first name of the last field whose type is `*sql.DB`, or `default` when there is no
      such field. */
  function LastConnName(fields: seq<Field>, default: string): string
    requires AllFieldsSafe(fields)
  {
    match LastIndex(fields, IsConnField)
    case Some(k) => fields[k].names[0]
    case None => default
  }

  /** After the field loop `hasConn` is set exactly when it was set before or some field has
      type `*sql.DB`, and `conn` is the first name of the last such field. */
  lemma {:induction false} ConnIsLastConnField(t: Table, fields: seq<Field>, colInit: ColumnInit)
    requires FieldsSafe(fields, colInit)
    ensures ScanFields(t, fields, colInit).Ok? ==>
      && AllFieldsSafe(fields)
      && ScanFields(t, fields, colInit).value.hasConn ==
           (t.hasConn || LastIndex(fields, IsConnField).Some?)
      && ScanFields(t, fields, colInit).value.conn == LastConnName(fields, t.conn)
    decreases |fields|
  {
    if fields != [] {
      var f := fields[0];
      var rest := fields[1..];
      ScanFieldsCons(t, fields, colInit);
      LastIndexCons(fields, IsConnField);
      FieldStep(t, f, colInit);
      var step := ScanField(t, f, colInit);
      if step.Ok? {
        ConnIsLastConnField(step.value, rest, colInit);
        var i := LastIndex(rest, IsConnField);
        if i.Some? {
          assert fields[i.value + 1] == rest[i.value];
        }
      }
    }
  }

  // ---------------------------------------------------------------------------
  // The declaration walk

  /** The declarations that carry the marker, in order. */
  function MarkedOnly(decls: seq<Decl>): (r: seq<Decl>)
    ensures forall k :: 0 <= k < |r| ==> IsMarked(r[k])
  {
    if decls == [] then []
    else if IsMarked(decls[0]) then [decls[0]] + MarkedOnly(decls[1..])
    else MarkedOnly(decls[1..])
  }

  /** Declarations that are not general declarations, have no doc comment or have no marker line
      contribute nothing and cause no error: dropping them changes nothing, and a file without
      marked declarations adds no table. */
  lemma {:induction false} UnmarkedDeclsIrrelevant(tables: seq<Table>, decls: seq<Decl>, colInit: ColumnInit)
    requires DeclsSafe(decls, colInit)
    ensures DeclsSafe(MarkedOnly(decls), colInit)
    ensures ScanDecls(tables, decls, colInit) == ScanDecls(tables, MarkedOnly(decls), colInit)
    ensures MarkedOnly(decls) == [] ==> ScanDecls(tables, decls, colInit) == (tables, None)
    decreases |decls|
  {
    if decls != [] {
      var d := decls[0];
      var step := ScanDecl(d, colInit);
      if !IsMarked(d) {
        UnmarkedDeclsIrrelevant(tables, decls[1..], colInit);
      } else {
        var m := MarkedOnly(decls);
        assert m == [d] + MarkedOnly(decls[1..]);
        assert m[0] == d && m[1..] == MarkedOnly(decls[1..]);
        if step.Ok? {
          var next := if step.value.Some? then tables + [step.value.value] else tables;
          UnmarkedDeclsIrrelevant(next, decls[1..], colInit);
        }
      }
    }
  }

  /** The outcome of one iteration of the declaration loop. */
  type Step = Result<Option<Table>, Error>

  /** The iterations of the declaration loop Go runs, in order: one per declaration up to and
      including the first that fails. */
  function Steps(decls: seq<Decl>, colInit: ColumnInit): (r: seq<Step>)
    requires DeclsSafe(decls, colInit)
    ensures |r| <= |decls|
    ensures forall j :: 0 <= j < |r| ==> DeclSafe(decls[j], colInit) && r[j] == ScanDecl(decls[j], colInit)
    ensures forall j :: 0 <= j < |r| - 1 ==> r[j].Ok?
    ensures |r| < |decls| ==> r != [] && r[|r| - 1].Err?
    decreases |decls|
  {
    if decls == [] then []
    else
      DeclsSafeCons(decls, colInit);
      var s := ScanDecl(decls[0], colInit);
      if s.Err? then [s]
      else
        var rest := Steps(decls[1..], colInit);
        StepsCons(decls, s, rest, colInit);
        [s] + rest
  }

  lemma DeclsSafeCons(decls: seq<Decl>, colInit: ColumnInit)
    requires DeclsSafe(decls, colInit) && decls != []
    ensures DeclSafe(decls[0], colInit)
    ensures ScanDecl(decls[0], colInit).Ok? ==> DeclsSafe(decls[1..], colInit)
  {
  }

  /** One more successful step in front of the steps of the remaining declarations. */
  lemma StepsCons(decls: seq<Decl>, s: Step, rest: seq<Step>, colInit: ColumnInit)
    requires decls != [] && DeclSafe(decls[0], colInit) && s == ScanDecl(decls[0], colInit) && s.Ok?
    requires |rest| <= |decls[1..]|
    requires forall j :: 0 <= j < |rest| ==> DeclSafe(decls[1..][j], colInit) && rest[j] == ScanDecl(decls[1..][j], colInit)
    requires forall j :: 0 <= j < |rest| - 1 ==> rest[j].Ok?
    requires |rest| < |decls[1..]| ==> rest != [] && rest[|rest| - 1].Err?
    ensures var r := [s] + rest;
      && |r| <= |decls|
      && (forall j :: 0 <= j < |r| ==> DeclSafe(decls[j], colInit) && r[j] == ScanDecl(decls[j], colInit))
      && (forall j :: 0 <= j < |r| - 1 ==> r[j].Ok?)
      && (|r| < |decls| ==> r != [] && r[|r| - 1].Err?)
  {
    var r := [s] + rest;
    forall j | 0 <= j < |r| ensures DeclSafe(decls[j], colInit) && r[j] == ScanDecl(decls[j], colInit) {
      if j > 0 {
        assert decls[j] == decls[1..][j - 1] && r[j] == rest[j - 1];
      }
    }
    forall j | 0 <= j < |r| - 1 ensures r[j].Ok? {
      if j > 0 {
        assert r[j] == rest[j - 1];
      }
    }
  }

  /** The declaration loop over outcomes already computed. */
  function Collect(tables: seq<Table>, steps: seq<Step>): (seq<Table>, Option<Error>)
    decreases |steps|
  {
    if steps == [] then (tables, None)
    else
      match steps[0]
      case Err(e) => (tables, Some(e))
      case Ok(None) => Collect(tables, steps[1..])
      case Ok(Some(t)) => Collect(tables + [t], steps[1..])
  }

  lemma {:induction false} ScanDeclsCollects(tables: seq<Table>, decls: seq<Decl>, colInit: ColumnInit)
    requires DeclsSafe(decls, colInit)
    ensures ScanDecls(tables, decls, colInit) == Collect(tables, Steps(decls, colInit))
    decreases |decls|
  {
    if decls != [] {
      var s := ScanDecl(decls[0], colInit);
      var steps := Steps(decls, colInit);
      assert steps[0] == s;
      if s.Ok? {
        assert steps[1..] == Steps(decls[1..], colInit);
        var next := if s.value.Some? then tables + [s.value.value] else tables;
        ScanDeclsCollects(next, decls[1..], colInit);
      }
    }
  }

  /** `ts` are, in order, the tables of the outcomes in `steps` that yield one: `idx` maps each
      to its outcome, and every outcome that yields a table is mapped to. */
  ghost predicate Collected(ts: seq<Table>, steps: seq<Step>, idx: seq<nat>) {
    && |idx| == |ts|
    && (forall k :: 0 <= k < |idx| ==> idx[k] < |steps| && steps[idx[k]] == Ok(Some(ts[k])))
    && (forall k, l :: 0 <= k < l < |idx| ==> idx[k] < idx[l])
    && (forall j :: 0 <= j < |steps| && steps[j].Ok? && steps[j].value.Some? ==> j in idx)
  }

  /** One more successful outcome in front keeps the tables collected, its table first. */
  lemma CollectedCons(ts: seq<Table>, s: Step, rest: seq<Step>, idx: seq<nat>)
    returns (idx2: seq<nat>)
    requires s.Ok?
    requires Collected(ts, rest, idx)
    ensures Collected((if s.value.Some? then [s.value.value] else []) + ts, [s] + rest, idx2)
  {
    var steps := [s] + rest;
    var shifted := seq(|idx|, k requires 0 <= k < |idx| => idx[k] + 1);
    forall k | 0 <= k < |idx| ensures shifted[k] < |steps| && steps[shifted[k]] == Ok(Some(ts[k])) {
      assert steps[idx[k] + 1] == rest[idx[k]];
    }
    forall k, l | 0 <= k < l < |shifted| ensures shifted[k] < shifted[l] {
      assert idx[k] < idx[l];
    }
    forall j | 1 <= j < |steps| && steps[j].Ok? && steps[j].value.Some? ensures j in shifted {
      assert rest[j - 1] == steps[j];
      assert j - 1 in idx;
      var k :| 0 <= k < |idx| && idx[k] == j - 1;
      assert shifted[k] == j;
    }
    if s.value.Some? {
      idx2 := [0] + shifted;
      CollectedPush(s.value.value, ts, steps, shifted);
    } else {
      idx2 := shifted;
      assert [] + ts == ts;
    }
  }

  lemma CollectedPush(t: Table, ts: seq<Table>, steps: seq<Step>, idx: seq<nat>)
    requires steps != [] && steps[0] == Ok(Some(t))
    requires |idx| == |ts|
    requires forall k :: 0 <= k < |idx| ==> 0 < idx[k] < |steps| && steps[idx[k]] == Ok(Some(ts[k]))
    requires forall k, l :: 0 <= k < l < |idx| ==> idx[k] < idx[l]
    requires forall j :: 1 <= j < |steps| && steps[j].Ok? && steps[j].value.Some? ==> j in idx
    ensures Collected([t] + ts, steps, [0] + idx)
  {
    var idx2 := [0] + idx;
    var all := [t] + ts;
    forall k | 0 <= k < |idx2| ensures idx2[k] < |steps| && steps[idx2[k]] == Ok(Some(all[k])) {
      if k > 0 {
        assert idx2[k] == idx[k - 1] && all[k] == ts[k - 1];
      }
    }
    forall k, l | 0 <= k < l < |idx2| ensures idx2[k] < idx2[l] {
      assert idx2[l] == idx[l - 1];
      if k > 0 {
        assert idx2[k] == idx[k - 1];
      }
    }
  }

  lemma {:induction false} CollectOrigin(tables: seq<Table>, steps: seq<Step>)
    returns (idx: seq<nat>)
    requires forall j :: 0 <= j < |steps| - 1 ==> steps[j].Ok?
    ensures tables <= Collect(tables, steps).0
    ensures Collected(Collect(tables, steps).0[|tables|..], steps, idx)
    ensures Collect(tables, steps).1 ==
      if steps != [] && steps[|steps| - 1].Err? then Some(steps[|steps| - 1].error) else None
    decreases |steps|
  {
    var r := Collect(tables, steps);
    if steps == [] {
      idx := [];
    } else {
      var s := steps[0];
      var rest := steps[1..];
      if s.Err? {
        idx := [];
        assert r.0[|tables|..] == [];
      } else {
        assert forall j :: 0 <= j < |rest| - 1 ==> rest[j].Ok? by {
          assert forall j :: 0 <= j < |rest| - 1 ==> rest[j] == steps[j + 1];
        }
        var head := if s.value.Some? then [s.value.value] else [];
        var next := tables + head;
        var idx' := CollectOrigin(next, rest);
        assert s.value.None? ==> next == tables;
        assert r == Collect(next, rest);
        assert r.0[|tables|..] == head + r.0[|next|..] by {
          assert r.0[..|next|] == next;
        }
        assert steps == [s] + rest;
        idx := CollectedCons(r.0[|next|..], s, rest, idx');
      }
    }
  }

  /** The tables `Init` adds are, in declaration order, exactly those of the declarations that
      yield one, up to the first declaration that fails, whose error is returned; the tables
      added before it stay, and no later declaration is looked at. */
  lemma TablesInDeclarationOrder(tables: seq<Table>, decls: seq<Decl>, colInit: ColumnInit)
    requires DeclsSafe(decls, colInit)
    ensures var r := ScanDecls(tables, decls, colInit); var steps := Steps(decls, colInit);
      && tables <= r.0
      && (exists idx :: Collected(r.0[|tables|..], steps, idx))
      && (r.1.None? ==> |steps| == |decls|)
      && (r.1.Some? ==> steps != [] && steps[|steps| - 1] == Err(r.1.value))
  {
    ScanDeclsCollects(tables, decls, colInit);
    var idx := CollectOrigin(tables, Steps(decls, colInit));
  }

  /** `Init` on a Go file: the receiver's tables gain, in declaration order, exactly the tables
      of the declarations the walk reaches; it returns no error when every declaration was
      scanned, and otherwise the error of the last declaration it reached, keeping the tables
      collected before it. */
  lemma InitCollectsTables(i: InputFile, path: string, f: SourceFile, colInit: ColumnInit)
    requires HasSuffix(path, GoExt) && DeclsSafe(f.decls, colInit)
    ensures var r := Init(i, path, f, colInit); var steps := Steps(f.decls, colInit);
      && i.tables <= r.file.tables
      && (exists idx :: Collected(r.file.tables[|i.tables|..], steps, idx))
      && (r.err.None? ==> |steps| == |f.decls|)
      && (r.err.Some? ==> steps != [] && steps[|steps| - 1] == Err(r.err.value))
  {
    TablesInDeclarationOrder(i.tables, f.decls, colInit);
  }
}
