# crate2trait: a verified model of `convert.py`

`convert.py` reads the Rust sources of a crate, finds every `pub fn` and
`pub async fn` signature, and prints two Rust traits with their `impl`
blocks for a placeholder type `NameMe`. One is `Async<Name>`, declaring the
async functions. The other is `<Name>`, declaring the rest. Each `impl`
method forwards to the module function it stands for, and an async call is
awaited.

The model has five modules:

- `PyStr`: the Python string operations the script relies on. This covers
  `str.replace`, the `re.sub(r" +", "")` space deletion, `strip`, `split`,
  `join` and `removesuffix`, with Python truthiness of an optional string.
- `Signature`: the `Function` record and its constructor. The constructor
  strips the qualifier, the name and the return type, and normalises the
  parameter text through a fixed chain of rewrites. The lemmas relate that
  chain to reference definitions: the text with layout deleted (`Clean`),
  and a space after every `:` and `,` (`SpaceAfterPunct`).
- `SignatureExamples`: families of worked normalisations. Each fixes the
  punctuation of a parameter list and leaves the identifiers and types free.
- `Loader`: `parse_file` once the signature scan has run. It covers the
  module name derived from a `pathlib` path and one `Function` per match
  the scan captured.
- `Generator`: `gen_traits` and the two passes of the main program.
  - `gen_traits` is a method with loops. It returns the trait lines and the
    `impl` lines instead of printing them.
  - The method is proved equal to the functions `TraitBlock` and
    `ImplBlock`.
  - The lemmas about those functions cover which functions a pass selects,
    in what order, the shape of every emitted line, and the line counts.

Two behaviours of the code are easy to misread:

- Forwarded arguments keep the space that follows their comma. `(w: f64, h: f64)`
  is forwarded as `(w, h)`, not `(w,h)` (`Generator.CallParamsTwo`).
- A `mod.rs` file is named after `str(path.parent)`, the whole directory
  path as written, not only the directory's last component. So
  `src/shapes/mod.rs` gives `src/shapes` (`Loader.ModuleNameOfModRs`).

## Model

| member | source | states |
|---|---|---|
| Signature.MakeFunction | convert.py:14-22 | The qualifier and return type are kept exactly when the captures are truthy, and then have no whitespace at either end. The name has no whitespace at either end and is no longer than the captured name. The parameter text has no newline and no whitespace at either end. Every space in it directly follows a `:` or `,`, and every non-final `:` or `,` is followed by a space |
| Signature.MakeFunctionFrames | convert.py:15-16 | Each kept qualifier, the name and each kept return type is its captured text with only surrounding whitespace removed: the capture is the field framed by whitespace on both sides |
| Signature.StripIfTruthy | convert.py:15 | `x.strip() if x else None`: the result is present exactly when the capture is truthy, and is then trimmed and no longer than the capture |
| Signature.Normalise | convert.py:17-21 | The parameter clean-up chain. It has no contract of its own; its properties are the `Normalise*` lemmas and `NormaliseStages` |
| Signature.StripAsync | convert.py:15 | The captured qualifier `async ` is kept as `async` |
| Signature.NormaliseStages | convert.py:17-21 | The five-step rewrite chain equals: delete layout, turn `,)` into `)`, space every `:` and `,`, strip |
| Signature.NormaliseShape | convert.py:17-21 | Normalised parameter text has no newline, is trimmed, and every space in it comes right after a `:` or `,`, while every non-final `:` or `,` is followed by a space |
| Signature.NormaliseOnlyAddsSpaces | convert.py:17-21 | Deleting the spaces from normalised text gives the stripped, cleaned, comma-closed input: the rewrites add nothing but spaces |
| Signature.NormaliseIgnoresLayout | convert.py:17 | Normalising a text equals normalising it with every newline and space deleted first, so a multi-line list normalises like its one-line form |
| Signature.CleanIdempotent | convert.py:17 | Deleting layout twice is deleting it once |
| Signature.NormaliseIdempotentIff | convert.py:17-21 | A second normalisation changes normalised text exactly when that text contains `, )` |
| Signature.RenormaliseChanges | convert.py:18 | When the cleaned normalised text still holds `,)`, a further pass shortens its text without spaces, so it changes it |
| Signature.RenormaliseKeeps | convert.py:17-21 | Without `,)` in the cleaned normalised text, a further pass changes nothing |
| Signature.ContainsSpaceAfterPunct | convert.py:19-20 | Spacing the punctuation produces `, )` exactly where the text held `,)` |
| Signature.DropCommaOnlyCommas | convert.py:18 | Turning `,)` into `)` removes commas and nothing else |
| Signature.SubstPunctIsSpaceAfterPunct | convert.py:19-20 | The `:` rewrite followed by the `,` rewrite puts one space after every `:` and `,` |
| Signature.RemoveSpaceAfterPunct | convert.py:19-20 | On text without spaces, deleting the spaces the punctuation rewrite added gives the text back |
| Signature.SpaceAfterPunctWellSpaced | convert.py:19-20 | On text without spaces, the punctuation rewrite yields well-spaced text |
| Signature.WellSpacedStrip | convert.py:21 | Stripping keeps text well spaced |
| SignatureExamples.NormaliseLayoutExample | convert.py:17-21 | `(x:t,\n y:u,)` normalises to `(x: t, y: u)` |
| SignatureExamples.NormalisePathExample | convert.py:19 | `(x:m::t)` normalises to `(x: m: : t)`: a path separator is spaced like two colons |
| SignatureExamples.NormaliseDoubledCommaExample | convert.py:18-20 | `(x:t,,)` normalises to `(x: t, )`: only the comma right before `)` goes |
| SignatureExamples.NormaliseGapExample | convert.py:17-21 | `(x: t, )` normalises to `(x: t)` |
| SignatureExamples.NormaliseOneExample | convert.py:17-21 | `(x:t)` normalises to `(x: t)` |
| SignatureExamples.NormaliseNotIdempotentExample | convert.py:17-21 | For `(x:t,,)`, normalising twice differs from normalising once |
| SignatureExamples.MakeFunctionQualifierExample | convert.py:15 | `async ` becomes `async`; an empty or missing qualifier becomes `None` |
| PyStr.StripFrame | convert.py:16 | `strip` returns a trimmed value that, framed by the whitespace it removed, is the input |
| PyStr.FramedIsStrip | convert.py:16 | Any trimmed value framed by whitespace to give `s` is `strip(s)`, so the framing characterises `strip` |
| Loader.FileName | convert.py:33 | `path.name` is the last component of a non-empty path |
| Loader.ModuleName | convert.py:33 | The module-name expression. It has no contract of its own; its properties are the `ModuleName*` lemmas |
| Loader.PathText | convert.py:33 | The text of an absolute path starts with `/` |
| Loader.Parent | convert.py:33 | The parent keeps absoluteness and, followed by the file name, gives back the path |
| Loader.PathTextNonEmpty | convert.py:33 | A well-formed path has non-empty text, so a `mod.rs` module name is always truthy |
| Loader.ModuleNameOfModRs | convert.py:33 | The module name of `dirs/mod.rs` is the text of the path `dirs` |
| Loader.ModuleNameOfBareModRs | convert.py:33 | A top-level `mod.rs` gives the module name `.` |
| Loader.ModuleNameOfNestedModRs | convert.py:33 | `a/b/mod.rs` gives `a/b` |
| Loader.ModuleNameOfFile | convert.py:33 | Any other `stem.rs` gives `stem`, whatever its directory; only one `.rs` is removed |
| Loader.ModuleNameWithoutSuffix | convert.py:33 | A file name not ending in `.rs` is the module name unchanged |
| Loader.ModuleNameEmpty | convert.py:33 | The module name is empty exactly when the file is named `.rs` |
| Loader.ParseFile | convert.py:31-37 | The module name is the path's module name. There is one function per capture, in order. Each has the normalised parameters and the stripped name. Its qualifier and return type are present exactly when captured truthy, and are then the stripped captures |
| Loader.ParseFileOne | convert.py:36-37 | A file with one match gives a module with exactly the constructed function |
| Loader.ParseFileQualifiers | convert.py:15 | For captures of the scan's `(async )?` group, the parsed qualifier is `async` or missing, never blank |
| Generator.InPass | convert.py:42 | The filter of a pass: a truthy qualifier for the async pass, a missing one for the other. Its consequences are `FuncsMember` and `PassPartition` |
| Generator.Entries | convert.py:41-43 | What one pass emits: modules in order, then selected functions in order. Its properties are the `Entries*` lemmas |
| Generator.Funcs | convert.py:42 | The selection is no longer than the module's function list |
| Generator.FuncsMember | convert.py:42 | A function is selected exactly when it is in the module and the pass takes it: a truthy qualifier for the async pass, a missing one for the other |
| Generator.PassPartition | convert.py:42 | Apart from a blank qualifier, a function is taken by exactly one pass; a blank one by neither |
| Generator.FuncsConcat | convert.py:42 | Selection keeps declaration order: selecting from `a + b` is selecting from `a`, then from `b` |
| Generator.FuncsSplit | convert.py:42 | Without blank qualifiers the two passes' selections from one module add up to its function count |
| Generator.EntriesConcat | convert.py:41-43 | A pass visits modules in order: the entries of `a + b` are those of `a` followed by those of `b` |
| Generator.EntriesOne | convert.py:41-43 | The entries of one module are its selected functions in declaration order |
| Generator.EntriesMember | convert.py:41-43 | An entry is emitted exactly when its function belongs to one of the modules and the pass takes it |
| Generator.EntriesPartition | convert.py:42 | Every non-blank function of the modules is emitted by exactly one of the two passes |
| Generator.PassesCount | convert.py:76-77 | Without blank qualifiers the two passes emit as many entries as the modules declare functions |
| Generator.ParsedNoBlank | convert.py:75 | Modules parsed from scanned files have no blank qualifier |
| Generator.AsyncPrefix | convert.py:44 | `"{async_pref} "` for a truthy qualifier, else empty. Used by the `TraitLine*` lemmas |
| Generator.ReturnSuffix | convert.py:45 | `" -> {return_type}"` for a truthy return type, else empty. Used by the `TraitLine*` lemmas |
| Generator.AwaitSuffix | convert.py:58 | `".await"` for a truthy qualifier, else empty. Its consequence is `ForwardAwait` |
| Generator.Header | convert.py:62 | The `impl` method's signature line; `BlockShape` shows it is the trait line without its `;` |
| Generator.TraitHead | convert.py:40 | `pub trait {name} {`, the first line of `TraitBlock` |
| Generator.ImplHead | convert.py:49 | `impl {name} for NameMe {`, the first line of `ImplBlock` |
| Generator.TraitLine | convert.py:46 | A trait line ends in `;` |
| Generator.ModulePrefix | convert.py:52 | The prefix ends in `::` for a truthy module name and is empty otherwise |
| Generator.NamesOf | convert.py:60 | At most one name per piece, and no name contains `:` |
| Generator.CallName | convert.py:64 | `name.replace('<', '::<')`. Its meaning is `CallNamePlain` and `CallNameGeneric` |
| Generator.ParamNames | convert.py:60 | No forwarded name contains `:`, `,` or `(` |
| Generator.CallParams | convert.py:61 | The call's argument list starts with `(` and ends with `)` |
| Generator.ForwardLine | convert.py:64 | The forwarding call. Its shape is given by `ForwardAwait`, `ForwardTwoExample` and `ModRsAsyncExample` |
| Generator.ParamNamesTwo | convert.py:60 | `(x: t, y: u)` forwards the names `x` and ` y`: the second keeps its leading space |
| Generator.CallParamsTwo | convert.py:60-61 | `(x: t, y: u)` is called with `(x, y)` |
| Generator.ParamNamesOne | convert.py:60-61 | `(x: t)` forwards `x` and is called with `(x)` |
| Generator.ParamNamesReceiver | convert.py:60 | A receiver without `:` such as `&self` is dropped: `(r, x: t)` forwards only ` x` |
| Generator.CallParamsReceiver | convert.py:60-61 | `(r, x: t)` is called with `( x)` |
| Generator.ParamNamesReceiverOnly | convert.py:60-61 | A receiver alone forwards nothing and is called with `()` |
| Generator.CallNamePlain | convert.py:64 | A name without `<` is called as it is |
| Generator.CallNameGeneric | convert.py:64 | `x<y>` is called as `x::<y>` |
| Generator.ForwardAwait | convert.py:58-64 | A forwarding call ends in `.await` exactly when the function's qualifier is truthy |
| Generator.PassAwait | convert.py:56-64 | In the async pass every forwarding call is awaited; in the other, none is |
| Generator.TraitLineAsync | convert.py:44-46 | A scanned async signature with return type `ret` declares `    async fn name(params) -> ret;` |
| Generator.TraitLinePlain | convert.py:44-46 | A scanned signature with no qualifier and no return type declares `    fn name(params);` |
| Generator.TraitLineBlankReturn | convert.py:22 | A return type of only whitespace writes no arrow, the same line as a missing one |
| Generator.ForwardTwoExample | convert.py:52-64 | A synchronous `(x:t,\n y:u,)` in module `n` forwards as `        n::name(x, y)` |
| Generator.ModRsAsyncExample | convert.py:44-64 | `dirs/mod.rs` declaring `async fn name(x:t)`: the module is named after `dirs`, the trait declares `    async fn name(x: t);`, and the call `        dirs::name(x).await` is awaited |
| Generator.ImplMethod | convert.py:62-65 | One `impl` method is four lines |
| Generator.TraitBlock | convert.py:40-47 | The trait printed by one pass has two lines more than the pass has entries, opens with its head and ends with `}` |
| Generator.ImplBlock | convert.py:49-66 | The `impl` printed by one pass has four lines per entry and two more, opens with its head and ends with `}` |
| Generator.TraitBody | convert.py:43-46 | One trait line per entry |
| Generator.ImplBody | convert.py:56-65 | Four `impl` lines per entry |
| Generator.ConcatAt | convert.py:62-65 | In a run of four-line blocks, block `k` occupies lines `4k` to `4k+3` |
| Generator.ImplBodyAt | convert.py:56-65 | Entry `k`'s method occupies lines `4k` to `4k+3` of the `impl` body |
| Generator.ImplBodyLines | convert.py:62-65 | Entry `k`'s method is its header, `    {`, its forwarding call, `    }` |
| Generator.TraitBlockAt | convert.py:40-47 | The trait has `2+k` lines for `k` entries, and line `1+i` declares entry `i` |
| Generator.ImplBlockAt | convert.py:49-66 | The `impl` has `2+4k` lines for `k` entries, and line `1+i` is line `i` of the body |
| Generator.BlockShape | convert.py:40-66 | For `k` entries the trait has `2+k` lines and the `impl` `2+4k`. Trait line `1+i` is `impl` line `1+4i` followed by `;`, then come the braces and the forwarding call |
| Generator.BuildTrait | convert.py:40-47 | The loop over modules and selected functions builds exactly `TraitBlock` |
| Generator.BuildImpl | convert.py:49-66 | The loop over modules and selected functions builds exactly `ImplBlock` |
| Generator.GenTraits | convert.py:39-69 | `gen_traits` returns the trait block and the `impl` block of the pass |
| Generator.Convert | convert.py:76-77 | The program's two passes are `Async<Name>` over async functions, then `<Name>` over the rest. Without blank qualifiers the traits total `4 + n` lines and the `impl`s `4 + 4n` for `n` functions |

## Left out

- The signature scan of `parse_file` (convert.py:35-36) is not modelled. Its
  four capture groups are the input `Loader.Captures`. `Loader.Scanned` and
  `Loader.ParseFileQualifiers` state the one thing the model relies on
  about it: the qualifier group is `async ` or missing. The group's
  semantics rest on Python's backtracking regular expressions.
- Reading files, the progress message and the final `print` of the blocks
  (convert.py:32, 34, 68-69) are I/O. `Generator.GenTraits` returns the
  lines, which `print` would join with newlines.
- `glob` discovery and `sys.argv` (convert.py:71-75) are process and
  filesystem glue. `Generator.Convert` takes the trait name and the parsed
  modules as parameters. Files are parsed in the order the list gives.
- The `@dataclass` decorators (convert.py:8, 25) generate the records'
  methods. The only one the program calls is `Module`'s generated
  constructor (convert.py:37), which is the `Loader.Module` datatype
  constructor here. `Function` has its own constructor (convert.py:14-22),
  modelled by `Signature.MakeFunction`.
- A `pathlib.Path` module name for `mod.rs` is modelled by its text,
  `Loader.PathText`. `PathText` is defined for any `FilePath`.
  `Loader.PathTextNonEmpty` requires `ValidPath`: components that hold no
  `/` and are not empty or `.`. Those are the paths `pathlib` builds. The
  text of such a path is never empty, so its truthiness agrees with the
  `Path` object's, which is always truthy.
- `Generator.GenTraits` runs its two loops as two methods, `BuildTrait` and
  `BuildImpl`. Each `impl` method's four `append` calls are modelled as one
  append of the four lines.
- `PyStr.ReplaceAll` models `str.replace` for a non-empty pattern only,
  which is the only kind the program uses.
- `Generator.Convert`: the line counts are stated only when no function has
  a blank qualifier (present, but empty once stripped). Such a function
  is in neither pass. `Generator.ParsedNoBlank` shows that scanned files
  never produce one.
- `Generator.ParamNames`: the contract states what the names avoid, not
  the names themselves. The exact names are stated by the example lemmas
  for one binding, two bindings and a receiver.
