# tabler annotation scanner, modelled in Dafny

tabler reads a Go source file, finds the struct types whose doc comment carries `@table`,
and turns each field with a `tabler:"…"` struct tag into a Column of a Table. It then writes
SQL helper code next to the input, in a file named `<input>_tabler.go`. This project models
the scanning half:

- `InputFile.Init` (lib/input.go), which does the following:
  - it derives the build target from the path;
  - it takes the package name;
  - it walks the top-level declarations;
  - it picks the marked ones and names each table after its first named type spec;
  - it normalises each field type with `printableType`;
  - it records the `*sql.DB` connection field;
  - it hands each tagged field to `col.init`;
  - it keeps the tables that have at least one column.
- The tag pattern `tabler:"([0-9a-zA-Z=&\(\)]*)"`, and the `plus1`, `lower` and `caller`
  template filters (lib/templates.go).

The project has these modules:

- `Results` (results.dfy): `Option` and `Result`.
- `Text` (text.dfy): the `strings` and `path/filepath` functions the scanner calls.
  `HasPrefix`, `HasSuffix` and `OccursAt` are plain definitions. The trimming, search and
  `Split` functions carry their own contracts, and `Join` is characterised by the round-trip
  lemma `SplitJoin`.
- `Templates` (templates.dfy): the filters and the tag pattern.
  - The pattern is given a declarative meaning (`MatchesAt`, `LeftmostMatch`).
  - `TagPayload` is the function-level scanner, and `FindTagPayload` is a loop implementation
    of it.
- `Input` (input.dfy): the parsed declarations, the table model and `Init` itself.
  - `Init` is a pure function from the receiver, the path, the parsed file and `col.init` to
    an `Outcome`. An `Outcome` holds the receiver as the call leaves it and the error it
    returned.
  - The receiver is part of the result because Go mutates `*i`. It leaves the build target,
    the package name and the tables collected so far in place when a later declaration fails.
- `ScannerProps` (scanner_props.dfy): reference definitions and the lemmas that tie the
  scanner to them. They cover:
  - the column list as a map of `col.init` over the tagged fields;
  - the primary keys as the primary subsequence of the columns;
  - the connection as the last `*sql.DB` field;
  - the tables as the outcomes of the declarations reached, in order.
- `ExampleModels` (example_models.dfy): example/models.go given to `Init` as input, with
  lemmas stating the resulting tables. The tag payloads are parameters that must consist of
  class characters, and `ExamplePayloadsInClass` shows that the file's own payloads do. The
  module also states a field loop that stops at a rejected tag.

Go's panics are preconditions, stated only for what the code actually reaches:

- `FieldSafe`: reading `field.Names[0]` of an embedded field that is a connection field or
  carries a tabler tag.
- `FieldsSafe`: the field loop returns at the first field `col.init` rejects
  (lib/input.go:117-118). Fields after that one are never read, so they carry no
  precondition. `AllFieldsSafe` is the stronger "every field is safe", and it holds whenever
  the loop runs to the end.
- `DeclSafe`: asserting that `Specs[0]` is a struct type spec, and `FieldsSafe` for its
  fields.
- `DeclsSafe`: the walk stops at the first declaration that fails, so later declarations
  carry no precondition.

The code and the design intent disagree on one point:

- The design intent: a `*sql.DB` field is an injected dependency and never becomes a Column.
- The code: at lib/input.go:106-125 the tag check follows the connection check without an
  `else`. A tagged `*sql.DB` field is recorded as the connection and also becomes a Column.
- The model follows the code. `ExampleModels.TaggedConnFieldIsColumn` states this case.

## Model

| member | source | states |
|---|---|---|
| Text.TrimPrefix | lib/input.go:15 | with the prefix present, prefix + result is the input; otherwise the input is returned unchanged |
| Text.TrimSuffix | lib/input.go:16 | with the suffix present, result + suffix is the input; otherwise the input is returned unchanged |
| Text.SpacesToDots | lib/input.go:17 | same length; every space becomes a dot and every other character is kept |
| Input.PrintableType | lib/input.go:14-18 | the normalised type has no space and is never longer than the `%v` rendering |
| ScannerProps.IdentTypeIsName | lib/input.go:99-104 | `FieldType` (the `%v` rendering `Render`, then `printableType`): a named type prints as its name, and a pointer to it as `*` followed by the name |
| ScannerProps.SelectorTypeIsDotted | lib/input.go:99-104 | `FieldType`: the rendering `&{pkg Sel}` of a qualified type normalises to `pkg.Sel`, and a pointer to it to `*pkg.Sel` |
| ScannerProps.SelectorUnwrapped | lib/input.go:14-16 | trimming `&{` and `}` from a qualified type's rendering leaves the package and the name separated by one space |
| ScannerProps.SpaceBecomesDot | lib/input.go:17 | the space between two identifiers becomes a dot and nothing else changes |
| ScannerProps.DottedSqlDB | lib/input.go:107 | the only qualified type whose dotted form is `sql.DB` is package `sql`, name `DB` |
| ScannerProps.ConnTypeIff | lib/input.go:99-110 | for well-formed type expressions, a field is the connection field exactly when its type is a pointer to `sql.DB` |
| ScannerProps.StarSelectorConn | lib/input.go:99-107 | a pointer to a qualified type is the connection type exactly when the package is `sql` and the name `DB` |
| Text.Split | lib/input.go:33 | dir + file is the path; the file part has no `/`; the dir part is empty or ends in `/` |
| Text.SplitJoin | lib/input.go:33-34 | `Join` of a directory part ending in the separator and a file name without one is split back into the same two parts, and `Join` of `Split`'s parts gives the path back |
| Input.BuildTarget | lib/input.go:30-37 | a target exists exactly for paths ending in `.go`, and the error otherwise names the path; the target ends in `_tabler.go`, and swapping that suffix back for `.go` gives the path |
| Text.IndexFrom | lib/input.go:69 | the result is the first occurrence at or after the start position; none means there is no occurrence there |
| Text.Contains | lib/input.go:69 | `strings.Contains` holds exactly when the substring occurs at some position |
| ScannerProps.MarkedIff | lib/input.go:61-76 | `IsMarked` and `HasMarker`: a declaration is marked exactly when it is a general declaration with a doc comment, one of whose lines holds `@table` at some position |
| ScannerProps.TableNameSpec | lib/input.go:80-92 | `TableName`: a non-empty name is the name of the first named type spec; with no named type spec the name is empty |
| Input.FirstTypeName | lib/input.go:80-89 | no name exactly when no spec is a named type spec; otherwise the name of the first named type spec, skipping nameless type specs and other specs |
| ScannerProps.AddColumnKeepsPrimaries | lib/input.go:119-123 | appending a Column keeps the table's primary keys equal to the primary subsequence of its columns |
| Input.ScanField | lib/input.go:98-125 | the field step fails exactly when the field has a matching tag and `col.init` rejects its arguments; the table name is kept |
| Input.ScanFields | lib/input.go:96-126 | the field loop keeps the table name and never loses columns; it succeeds exactly when every field is safe and no tagged field is rejected |
| ScannerProps.Reached | lib/input.go:96-126 | the fields the loop reads are a prefix of the fields, and every one of them is safe |
| ScannerProps.ReachedStops | lib/input.go:113-118 | every field read before the last passes, and the loop stops short of the end only at a field `col.init` rejects |
| Input.ScanDecl | lib/input.go:60-131 | an unmarked declaration gives no table; a marked declaration without a named type spec gives the missing-name error; a table comes only from a marked declaration, is named after its first named type spec, and has at least one column |
| ScannerProps.ColumnsFromTaggedFields | lib/input.go:96-126 | over the fields the loop reads, the loop succeeds exactly when `col.init` accepts every tagged field; it then appends `col.init`'s Columns for the tagged fields in declaration order, and appends their primary subsequence to the primary keys; otherwise it fails with the first rejection's error |
| ScannerProps.ColumnsOfLength | lib/input.go:117-120 | when every tagged field is accepted, there is one Column per tagged field |
| ScannerProps.PrimariesSubsequence | lib/input.go:120-123 | the primary keys are a subsequence of the columns and contain every primary column |
| ScannerProps.PrimariesAppend | lib/input.go:120-123 | the primary keys of concatenated column lists are the concatenation of their primary keys |
| ScannerProps.MarkedDeclTable | lib/input.go:78-131 | for a marked, named declaration, a rejection by `col.init` is the declaration's error; otherwise every field was read, and the table, if any, has the declaration's name, exactly the tagged fields' Columns and their primary subsequence as keys, and the last `*sql.DB` field as its connection; there is no table exactly when there are no Columns |
| ScannerProps.LastIndex | lib/input.go:106-110 | the last index whose element satisfies the predicate, or none when no element does |
| ScannerProps.ConnIsLastConnField | lib/input.go:106-110 | after the field loop, the table has a connection exactly when it had one before or some field is `*sql.DB`; the connection name is that of the last such field |
| ScannerProps.UnmarkedDeclsIrrelevant | lib/input.go:58-76 | dropping unmarked and non-general declarations does not change the result of the walk; with no marked declaration the walk adds nothing and succeeds |
| ScannerProps.Steps | lib/input.go:58-132 | the walk reaches the declarations in order, every one reached except the last succeeds, and it stops early only at a failure |
| ScannerProps.ScanDeclsCollects | lib/input.go:58-132 | the declaration loop equals collecting the per-declaration outcomes it reaches |
| ScannerProps.CollectOrigin | lib/input.go:58-132 | collecting outcomes keeps the earlier tables, adds the tables of the outcomes that yield one, in order and all of them, and reports the failure of a failing last outcome |
| ScannerProps.TablesInDeclarationOrder | lib/input.go:58-132 | the tables added are exactly those of the declarations reached, in order; no error means every declaration was reached; an error is the failure of the last declaration reached |
| Input.ScanDecls | lib/input.go:58-132 | the walk keeps the tables it started with, and every table it adds has a column |
| Input.Init | lib/input.go:28-135 | a non-`.go` path leaves the receiver unchanged and returns the not-a-Go-file error; otherwise the build target is derived from the path, the package name is the file's (or the receiver's if the file has none), existing tables are kept, and every table added has a column, error or not |
| ScannerProps.InitCollectsTables | lib/input.go:28-135 | on a Go file, the tables added are those of the declarations reached, in order; no error means every declaration was scanned; an error is the last reached declaration's failure |
| Templates.Plus1 | lib/templates.go:11 | adds one to a 64-bit int, wrapping the maximum to the minimum |
| Templates.Plus1Injective | lib/templates.go:11 | `plus1` is injective and never returns its argument |
| Templates.Lower | lib/templates.go:12 | same length; each character is lowered on its own |
| Templates.LowerProperties | lib/templates.go:12 | the result has no upper-case letter, keeps every other character, and lowering twice is lowering once |
| Templates.Caller | lib/templates.go:13 | a one-character result: the first character of the input, lowered, which is a prefix of the lowered input |
| Templates.MatchAt | lib/templates.go:15 | a group found at a position is one with which the pattern matches there |
| Templates.RunEnd | lib/templates.go:15 | the end of the maximal run of pattern-class characters from a position |
| Templates.RunEndUnique | lib/templates.go:15 | any run of class characters that cannot be extended ends where `RunEnd` says |
| Templates.MatchAtComplete | lib/templates.go:15 | whenever the pattern matches at a position with some group, the position-wise matcher finds exactly that group |
| Templates.FindFromSpec | lib/input.go:114-115 | `FindFrom`: with no match before the start, a result is the group of the leftmost match, and no result means the pattern matches nowhere |
| Templates.TagPayloadSound | lib/input.go:114-115 | `TagPayload`: there is no payload exactly when the pattern matches nowhere; a payload comes from the leftmost match and is made of class characters |
| Templates.TagPayloadComplete | lib/input.go:114-115 | the group of the leftmost match is the payload |
| Templates.UnclosedRunsGiveNoPayload | lib/templates.go:15 | a tag in which every `tabler:"` is followed by a class run that is not closed by `"` has no payload |
| Templates.FindTagPayload | lib/input.go:114-115 | the loop scanner returns the leftmost match's group, or none when there is no match, and agrees with `TagPayload` |
| ExampleModels.RawTagPayload | example/models.go:10-12 | a backquoted `tabler:"…"` literal whose payload is made of class characters yields that payload |
| ExampleModels.UserTable | example/models.go:7-13 | `User` yields the table `User` with Columns ID, Email and Created in order, ID alone as primary key, and no connection |
| ExampleModels.ProfileTable | example/models.go:15-21 | `Profile` yields the table `Profile` with Columns UserID, Attribute and Value, and primary keys UserID then Attribute |
| ExampleModels.WalkTwoTables | lib/input.go:58-132 | an unmarked declaration followed by two declarations that each yield a table leaves both tables, in order, with no error |
| ExampleModels.ExampleFile | example/models.go:1-21 | `Init` on the example file sets the package name `models` and appends the `User` table, then the `Profile` table, with no error |
| ExampleModels.TaggedConnFieldIsColumn | lib/input.go:106-125 | a tagged `*sql.DB` field is recorded as the connection and also becomes a Column |
| ExampleModels.RejectedTaggedField | lib/input.go:113-118 | a tagged field `col.init` rejects ends the field loop with the tag's error, whatever fields follow it |
| ExampleModels.RejectedTagFirst | lib/input.go:58-132 | a marked struct whose first tagged field is rejected is safe whatever fields follow, and `Init` returns the tag's error without adding a table |
| ExampleModels.RejectedTagStopsFieldLoop | lib/input.go:106-118 | with an embedded `*sql.DB` after a rejected tagged field, not every field is safe, yet the declaration is, and `Init` returns the tag's error |

## Left out

- `InputFile.Write` (lib/input.go:137-155) is not modelled. It renders a template and writes
  the file.
- `parser.ParseFile` is not modelled. `Init` receives the parsed file as a parameter.
  - The parse error at lines 45-47 is built and discarded, and so is the missing-name message
    at line 53. Neither changes the result.
  - A nil file after a failed parse would panic; the model always has a file.
- `Column.init`, and the `Table` and `Column` methods, are not part of this model. `col.init`
  is an arbitrary function parameter, and error texts become constructors of `Error`.
- Input.BuildTarget: `filepath.Split` is modelled on `/` only, and `filepath.Join` as plain
  concatenation. For paths that `filepath.Clean` would change (`./a.go`, `a//b.go`, Windows
  separators), the Go target is the cleaned form of the modelled one.
- Input.PrintableType: only the `%v` renderings of identifiers, qualified identifiers and a
  single pointer to either are modelled. Arrays, maps, functions and nested pointers print as
  Go's internal AST dumps.
- Templates.Lower: lowers ASCII letters only. `strings.ToLower` also maps non-ASCII upper-case
  letters.
- Templates.Caller: works on characters. Go slices the first byte, which for a non-ASCII
  first letter is part of a UTF-8 sequence. An empty input panics in Go and is a
  precondition here.
- Templates.Plus1: Go's `int` is taken to be 64 bits wide.
- The regular-expression engine is not modelled in general. Only this pattern's leftmost-first
  match is modelled, and `FindStringSubmatch` returns exactly that.
- Registering the filters in a template (`newTmpl`) is not modelled.
- Input.ScanDecl: fields are read from `Specs[0]`, as the code does, even when the table name
  came from a later spec. `DeclSafe` requires `Specs[0]` to be a struct type spec whenever that
  line is reached.
