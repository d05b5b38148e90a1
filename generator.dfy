/**
 The trait generator: from the parsed modules, one pass writes a trait
 declaring the selected functions and an `impl` of that trait for a
 placeholder type `NameMe` whose methods forward to the module functions.
 The async pass selects the functions with an `async` qualifier, the
 other pass those without one. The blocks are returned as their lines.
 */
module Generator {
  import opened PyStr
  import opened Signature
  import opened Loader
  import opened SignatureExamples

  // ---------------------------------------------------------------------
  // Selection

  /** Whether a pass takes `f`: the async pass a set qualifier, the other pass a missing one. */
  predicate InPass(f: Function, isAsync: bool) {
    if isAsync then Truthy(f.asyncPref) else f.asyncPref.None?
  }

  /** A qualifier that is present but empty, the one value that neither pass selects. */
  predicate Blank(f: Function) {
    f.asyncPref == Some("")
  }

  /** `funcs`: the functions of one module a pass selects, in declaration order. */
  function Funcs(fs: seq<Function>, isAsync: bool): (r: seq<Function>)
    ensures |r| <= |fs|
    decreases |fs|
  {
    if fs == [] then []
    else
      var last := fs[|fs| - 1];
      Funcs(fs[..|fs| - 1], isAsync) + (if InPass(last, isAsync) then [last] else [])
  }

  /** A selected function together with the module it comes from. */
  datatype Entry = Entry(owner: Module, func: Function)

  /** The functions `fs` of module `m`, each paired with `m`. */
  function Pairs(m: Module, fs: seq<Function>): (r: seq<Entry>)
    ensures |r| == |fs|
  {
    seq(|fs|, k requires 0 <= k < |fs| => Entry(m, fs[k]))
  }

  /** What one pass emits, in module order and then declaration order. */
  function Entries(ms: seq<Module>, isAsync: bool): seq<Entry>
    decreases |ms|
  {
    if ms == [] then []
    else Entries(ms[..|ms| - 1], isAsync) + Pairs(ms[|ms| - 1], Funcs(ms[|ms| - 1].functions, isAsync))
  }

  // ---------------------------------------------------------------------
  // The lines

  /** `"{async_pref} "` when the qualifier is set, else nothing. */
  function AsyncPrefix(f: Function): string {
    if Truthy(f.asyncPref) then f.asyncPref.value + " " else ""
  }

  /** `" -> {return_type}"` when there is a return type, else nothing. */
  function ReturnSuffix(f: Function): string {
    if Truthy(f.returnType) then " -> " + f.returnType.value else ""
  }

  /** The signature line of an `impl` method: the trait line without its `;`. */
  function Header(f: Function): string {
    "    " + AsyncPrefix(f) + "fn " + f.name + f.parameters + ReturnSuffix(f)
  }

  /** One declaration of the trait. */
  function TraitLine(f: Function): (r: string)
    ensures |r| > 0 && r[|r| - 1] == ';'
  {
    Header(f) + ";"
  }

  /** `"{name}::"` when the module has a name that is set and not empty, else nothing. */
  function ModulePrefix(name: Option<string>): (r: string)
    ensures Truthy(name) ==> EndsWith(r, "::")
    ensures !Truthy(name) ==> r == ""
  {
    if Truthy(name) then name.value + "::" else ""
  }

  /** The called name: every `<` of a generic name becomes `::<`. */
  function CallName(name: string): string {
    ReplaceAll(name, "<", "::<")
  }

  /** `".await"` when the qualifier is set, else nothing. */
  function AwaitSuffix(f: Function): string {
    if Truthy(f.asyncPref) then ".await" else ""
  }

  /** `[p.split(":")[0] for p in pieces if ":" in p]`. */
  function NamesOf(pieces: seq<string>): (r: seq<string>)
    ensures |r| <= |pieces|
    ensures forall k :: 0 <= k < |r| ==> ':' !in r[k]
    decreases |pieces|
  {
    if pieces == [] then []
    else (if ':' in pieces[0] then [Split(pieces[0], ':')[0]] else []) + NamesOf(pieces[1..])
  }

  /**
   The names of the forwarded arguments: drop every `(`, split on `,`,
   keep the pieces holding a `:` and take what comes before the first `:`.
   */
  function ParamNames(parameters: string): (r: seq<string>)
    ensures forall k :: 0 <= k < |r| ==> ':' !in r[k] && ',' !in r[k] && '(' !in r[k]
  {
    var unparened := Remove(parameters, '(');
    var pieces := Split(unparened, ',');
    NamesAvoid(pieces, ',');
    assert forall j :: 0 <= j < |pieces| ==> '(' !in pieces[j] by {
      forall j | 0 <= j < |pieces|
        ensures '(' !in pieces[j]
      {
        if '(' in pieces[j] {
          SplitKeeps(unparened, ',', j, '(');
        }
      }
    }
    NamesAvoid(pieces, '(');
    NamesOf(pieces)
  }

  /** The argument list of the forwarding call. */
  function CallParams(parameters: string): (r: string)
    ensures |r| >= 2 && r[0] == '(' && r[|r| - 1] == ')'
  {
    "(" + Join(",", ParamNames(parameters)) + ")"
  }

  /** The body of a forwarding method: the call of the module function. */
  function ForwardLine(prefix: string, f: Function): string {
    "        " + prefix + CallName(f.name) + CallParams(f.parameters) + AwaitSuffix(f)
  }

  /** The four lines of one `impl` method. */
  function ImplMethod(prefix: string, f: Function): (r: seq<string>)
    ensures |r| == 4
  {
    [Header(f), "    {", ForwardLine(prefix, f), "    }"]
  }

  function TraitHead(name: string): string {
    "pub trait " + name + " {"
  }

  function ImplHead(name: string): string {
    "impl " + name + " for NameMe {"
  }

  /** The declarations of the trait, one per entry. */
  function TraitBody(es: seq<Entry>): (r: seq<string>)
    ensures |r| == |es|
  {
    seq(|es|, k requires 0 <= k < |es| => TraitLine(es[k].func))
  }

  /** The lines of consecutive blocks, one block after another. */
  function Concat(blocks: seq<seq<string>>): seq<string>
    decreases |blocks|
  {
    if blocks == [] then [] else Concat(blocks[..|blocks| - 1]) + blocks[|blocks| - 1]
  }

  /** The method of each entry. */
  function Methods(es: seq<Entry>): (r: seq<seq<string>>)
    ensures |r| == |es|
  {
    seq(|es|, k requires 0 <= k < |es| => ImplMethod(ModulePrefix(es[k].owner.name), es[k].func))
  }

  /** The methods of the `impl`, four lines per entry. */
  function ImplBody(es: seq<Entry>): (r: seq<string>)
    ensures |r| == 4 * |es|
  {
    ConcatLength(Methods(es));
    Concat(Methods(es))
  }

  /** The trait one pass prints. */
  function TraitBlock(name: string, ms: seq<Module>, isAsync: bool): (r: seq<string>)
    ensures |r| == 2 + |Entries(ms, isAsync)|
    ensures r[0] == TraitHead(name) && r[|r| - 1] == "}"
  {
    [TraitHead(name)] + TraitBody(Entries(ms, isAsync)) + ["}"]
  }

  /** The `impl` one pass prints. */
  function ImplBlock(name: string, ms: seq<Module>, isAsync: bool): (r: seq<string>)
    ensures |r| == 2 + 4 * |Entries(ms, isAsync)|
    ensures r[0] == ImplHead(name) && r[|r| - 1] == "}"
  {
    [ImplHead(name)] + ImplBody(Entries(ms, isAsync)) + ["}"]
  }

  // ---------------------------------------------------------------------
  // The generator

  lemma PairsSnoc(m: Module, fs: seq<Function>, j: nat)
    requires j < |fs|
    ensures Pairs(m, fs[..j + 1]) == Pairs(m, fs[..j]) + [Entry(m, fs[j])]
  {
    assert fs[..j + 1][..j] == fs[..j];
  }

  lemma EntriesSnoc(ms: seq<Module>, i: nat, isAsync: bool)
    requires i < |ms|
    ensures Entries(ms[..i + 1], isAsync) == Entries(ms[..i], isAsync) + Pairs(ms[i], Funcs(ms[i].functions, isAsync))
  {
    assert ms[..i + 1][..i] == ms[..i];
  }

  lemma TraitBodySnoc(es: seq<Entry>, e: Entry)
    ensures TraitBody(es + [e]) == TraitBody(es) + [TraitLine(e.func)]
  {
    assert (es + [e])[..|es|] == es;
  }

  lemma ImplBodySnoc(es: seq<Entry>, e: Entry)
    ensures ImplBody(es + [e]) == ImplBody(es) + ImplMethod(ModulePrefix(e.owner.name), e.func)
  {
    var bs := Methods(es);
    var b := ImplMethod(ModulePrefix(e.owner.name), e.func);
    assert Methods(es + [e]) == bs + [b];
    assert (bs + [b])[..|bs|] == bs;
  }

  /** Before the first function of a module, nothing of it is emitted. */
  lemma ModuleStart(done: seq<Entry>, m: Module, fs: seq<Function>)
    ensures done + Pairs(m, fs[..0]) == done
  {
    assert Pairs(m, fs[..0]) == [];
  }

  /** After the last function of module i, the entries are those of the first i + 1 modules. */
  lemma ModuleDone(ms: seq<Module>, i: nat, isAsync: bool)
    requires i < |ms|
    ensures Entries(ms[..i], isAsync) + Pairs(ms[i], Funcs(ms[i].functions, isAsync)[..|Funcs(ms[i].functions, isAsync)|])
         == Entries(ms[..i + 1], isAsync)
  {
    var fs := Funcs(ms[i].functions, isAsync);
    assert fs[..|fs|] == fs;
    EntriesSnoc(ms, i, isAsync);
  }

  /** Emitting function j of a module adds its trait line. */
  lemma TraitStep(done: seq<Entry>, m: Module, fs: seq<Function>, j: nat)
    requires j < |fs|
    ensures TraitBody(done + Pairs(m, fs[..j + 1])) == TraitBody(done + Pairs(m, fs[..j])) + [TraitLine(fs[j])]
  {
    PairsSnoc(m, fs, j);
    assert done + Pairs(m, fs[..j + 1]) == (done + Pairs(m, fs[..j])) + [Entry(m, fs[j])];
    TraitBodySnoc(done + Pairs(m, fs[..j]), Entry(m, fs[j]));
  }

  /** Emitting function j of a module adds the four lines of its method. */
  lemma ImplStep(head: seq<string>, done: seq<Entry>, m: Module, fs: seq<Function>, j: nat)
    requires j < |fs|
    ensures head + ImplBody(done + Pairs(m, fs[..j + 1]))
         == (head + ImplBody(done + Pairs(m, fs[..j]))) + [Header(fs[j]), "    {", ForwardLine(ModulePrefix(m.name), fs[j]), "    }"]
  {
    PairsSnoc(m, fs, j);
    assert done + Pairs(m, fs[..j + 1]) == (done + Pairs(m, fs[..j])) + [Entry(m, fs[j])];
    ImplBodySnoc(done + Pairs(m, fs[..j]), Entry(m, fs[j]));
  }

  /** The first half of `gen_traits`: the trait, one declaration per selected function. */
  method BuildTrait(name: string, modules: seq<Module>, isAsync: bool) returns (traitLines: seq<string>)
    ensures traitLines == TraitBlock(name, modules, isAsync)
  {
    traitLines := [TraitHead(name)];
    for i := 0 to |modules|
      invariant traitLines == [TraitHead(name)] + TraitBody(Entries(modules[..i], isAsync))
    {
      var m := modules[i];
      var funcs := Funcs(m.functions, isAsync);
      ModuleStart(Entries(modules[..i], isAsync), m, funcs);
      for j := 0 to |funcs|
        invariant traitLines == [TraitHead(name)] + TraitBody(Entries(modules[..i], isAsync) + Pairs(m, funcs[..j]))
      {
        TraitStep(Entries(modules[..i], isAsync), m, funcs, j);
        traitLines := traitLines + [TraitLine(funcs[j])];
      }
      ModuleDone(modules, i, isAsync);
    }
    assert modules[..|modules|] == modules;
    traitLines := traitLines + ["}"];
  }

  /** The second half of `gen_traits`: the `impl`, one forwarding method per selected function. */
  method BuildImpl(name: string, modules: seq<Module>, isAsync: bool) returns (implLines: seq<string>)
    ensures implLines == ImplBlock(name, modules, isAsync)
  {
    implLines := [ImplHead(name)];
    for i := 0 to |modules|
      invariant implLines == [ImplHead(name)] + ImplBody(Entries(modules[..i], isAsync))
    {
      var m := modules[i];
      var prefix := ModulePrefix(m.name);
      var funcs := Funcs(m.functions, isAsync);
      ModuleStart(Entries(modules[..i], isAsync), m, funcs);
      for j := 0 to |funcs|
        invariant implLines == [ImplHead(name)] + ImplBody(Entries(modules[..i], isAsync) + Pairs(m, funcs[..j]))
      {
        var f := funcs[j];
        ImplStep([ImplHead(name)], Entries(modules[..i], isAsync), m, funcs, j);
        implLines := implLines + [Header(f), "    {", ForwardLine(prefix, f), "    }"];
      }
      ModuleDone(modules, i, isAsync);
    }
    assert modules[..|modules|] == modules;
    implLines := implLines + ["}"];
  }

  /** `gen_traits`: the trait and the `impl` of one pass, as lists of lines. */
  method GenTraits(name: string, modules: seq<Module>, isAsync: bool) returns (traitLines: seq<string>, implLines: seq<string>)
    ensures traitLines == TraitBlock(name, modules, isAsync)
    ensures implLines == ImplBlock(name, modules, isAsync)
  {
    traitLines := BuildTrait(name, modules, isAsync);
    implLines := BuildImpl(name, modules, isAsync);
  }

  /** The two passes of the program: `Async<name>` over the async functions, then `<name>` over the others. */
  method Convert(traitName: string, modules: seq<Module>)
    returns (asyncTrait: seq<string>, asyncImpl: seq<string>, syncTrait: seq<string>, syncImpl: seq<string>)
    ensures asyncTrait == TraitBlock("Async" + traitName, modules, true)
    ensures asyncImpl == ImplBlock("Async" + traitName, modules, true)
    ensures syncTrait == TraitBlock(traitName, modules, false)
    ensures syncImpl == ImplBlock(traitName, modules, false)
    ensures NoBlank(modules) ==> |asyncTrait| + |syncTrait| == 4 + Total(modules)
    ensures NoBlank(modules) ==> |asyncImpl| + |syncImpl| == 4 + 4 * Total(modules)
  {
    asyncTrait, asyncImpl := GenTraits("Async" + traitName, modules, true);
    syncTrait, syncImpl := GenTraits(traitName, modules, false);
    if NoBlank(modules) {
      PassesCount(modules);
    }
  }

  // ---------------------------------------------------------------------
  // Which functions a pass emits, and in what order

  /** No function of the modules has a present but empty qualifier. */
  predicate NoBlank(ms: seq<Module>) {
    forall i, k :: 0 <= i < |ms| && 0 <= k < |ms[i].functions| ==> !Blank(ms[i].functions[k])
  }

  /** The modules the program parses from scanned files have no blank qualifier, so the passes cover them all. */
  lemma ParsedNoBlank(ms: seq<Module>, paths: seq<FilePath>, founds: seq<seq<Captures>>)
    requires |ms| == |paths| == |founds|
    requires forall i :: 0 <= i < |ms| ==> ms[i] == ParseFile(paths[i], founds[i])
    requires forall i, k :: 0 <= i < |founds| && 0 <= k < |founds[i]| ==> Scanned(founds[i][k])
    ensures NoBlank(ms)
  {
    forall i | 0 <= i < |ms|
      ensures forall k :: 0 <= k < |ms[i].functions| ==> !Blank(ms[i].functions[k])
    {
      ParseFileQualifiers(paths[i], founds[i]);
    }
  }

  /** The number of functions over all modules. */
  function Total(ms: seq<Module>): nat
    decreases |ms|
  {
    if ms == [] then 0 else Total(ms[..|ms| - 1]) + |ms[|ms| - 1].functions|
  }

  /** `funcs` holds exactly the functions of the module that the pass selects. */
  lemma {:induction false} FuncsMember(fs: seq<Function>, isAsync: bool, f: Function)
    ensures f in Funcs(fs, isAsync) <==> f in fs && InPass(f, isAsync)
    decreases |fs|
  {
    if fs != [] {
      var n := |fs| - 1;
      FuncsMember(fs[..n], isAsync, f);
      assert fs == fs[..n] + [fs[n]];
    }
  }

  /** Apart from a blank qualifier, a function is in exactly one of the two passes; a blank one is in neither. */
  lemma PassPartition(f: Function)
    ensures !Blank(f) ==> (InPass(f, true) <==> !InPass(f, false))
    ensures Blank(f) ==> !InPass(f, true) && !InPass(f, false)
  {
  }

  /** `funcs` keeps declaration order: selecting from two runs of functions selects from each in turn. */
  lemma {:induction false} FuncsConcat(a: seq<Function>, b: seq<Function>, isAsync: bool)
    ensures Funcs(a + b, isAsync) == Funcs(a, isAsync) + Funcs(b, isAsync)
    decreases |b|
  {
    if b == [] {
      assert a + b == a;
    } else {
      var n := |b| - 1;
      assert (a + b)[..|a + b| - 1] == a + b[..n];
      FuncsConcat(a, b[..n], isAsync);
    }
  }

  /** The two passes split the functions of a module between them. */
  lemma {:induction false} FuncsSplit(fs: seq<Function>)
    requires forall k :: 0 <= k < |fs| ==> !Blank(fs[k])
    ensures |Funcs(fs, true)| + |Funcs(fs, false)| == |fs|
    decreases |fs|
  {
    if fs != [] {
      FuncsSplit(fs[..|fs| - 1]);
      PassPartition(fs[|fs| - 1]);
    }
  }

  /** A pass keeps module order: its entries for two runs of modules are those of each in turn. */
  lemma {:induction false} EntriesConcat(a: seq<Module>, b: seq<Module>, isAsync: bool)
    ensures Entries(a + b, isAsync) == Entries(a, isAsync) + Entries(b, isAsync)
    decreases |b|
  {
    if b == [] {
      assert a + b == a;
    } else {
      var n := |b| - 1;
      var last := Pairs(b[n], Funcs(b[n].functions, isAsync));
      assert (a + b)[..|a + b| - 1] == a + b[..n];
      assert (a + b)[|a + b| - 1] == b[n];
      EntriesConcat(a, b[..n], isAsync);
      calc {
        Entries(a + b, isAsync);
        Entries(a + b[..n], isAsync) + last;
        (Entries(a, isAsync) + Entries(b[..n], isAsync)) + last;
        Entries(a, isAsync) + (Entries(b[..n], isAsync) + last);
        Entries(a, isAsync) + Entries(b, isAsync);
      }
    }
  }

  /** The entries of a single module are its selected functions in declaration order. */
  lemma EntriesOne(m: Module, isAsync: bool)
    ensures Entries([m], isAsync) == Pairs(m, Funcs(m.functions, isAsync))
  {
    assert [m][..0] == [];
  }

  /** An entry of a pass is a function of one of the modules that the pass selects, and every such function is one. */
  lemma {:induction false} EntriesMember(ms: seq<Module>, isAsync: bool, e: Entry)
    ensures e in Entries(ms, isAsync) <==> e.owner in ms && e.func in e.owner.functions && InPass(e.func, isAsync)
    decreases |ms|
  {
    if ms != [] {
      var n := |ms| - 1;
      var fs := Funcs(ms[n].functions, isAsync);
      EntriesMember(ms[..n], isAsync, e);
      FuncsMember(ms[n].functions, isAsync, e.func);
      assert ms == ms[..n] + [ms[n]];
      if e in Pairs(ms[n], fs) {
        var k :| 0 <= k < |fs| && Pairs(ms[n], fs)[k] == e;
        assert e.func == fs[k];
      }
      if e.owner == ms[n] && e.func in fs {
        var k :| 0 <= k < |fs| && fs[k] == e.func;
        assert Pairs(ms[n], fs)[k] == e;
      }
    }
  }

  /** Every function of the modules, bar a blank one, is emitted by exactly one of the two passes. */
  lemma EntriesPartition(ms: seq<Module>, e: Entry)
    requires e.owner in ms && e.func in e.owner.functions && !Blank(e.func)
    ensures e in Entries(ms, true) <==> e !in Entries(ms, false)
  {
    EntriesMember(ms, true, e);
    EntriesMember(ms, false, e);
  }

  /** Without blank qualifiers the two passes together emit as many functions as the modules declare. */
  lemma {:induction false} PassesCount(ms: seq<Module>)
    requires NoBlank(ms)
    ensures |Entries(ms, true)| + |Entries(ms, false)| == Total(ms)
    decreases |ms|
  {
    if ms != [] {
      var n := |ms| - 1;
      assert NoBlank(ms[..n]) by {
        forall i, k | 0 <= i < n && 0 <= k < |ms[..n][i].functions|
          ensures !Blank(ms[..n][i].functions[k])
        {
          assert ms[..n][i] == ms[i];
        }
      }
      PassesCount(ms[..n]);
      assert forall k :: 0 <= k < |ms[n].functions| ==> !Blank(ms[n].functions[k]);
      FuncsSplit(ms[n].functions);
    }
  }

  // ---------------------------------------------------------------------
  // The shape of the blocks

  /** Block k of blocks of four lines takes lines 4k to 4k + 3. */
  lemma {:induction false} ConcatLength(blocks: seq<seq<string>>)
    requires forall i :: 0 <= i < |blocks| ==> |blocks[i]| == 4
    ensures |Concat(blocks)| == 4 * |blocks|
    decreases |blocks|
  {
    if blocks != [] {
      ConcatLength(blocks[..|blocks| - 1]);
    }
  }

  /** Block k of blocks of four lines takes lines 4k to 4k + 3. */
  lemma {:induction false} ConcatAt(blocks: seq<seq<string>>, k: nat)
    requires forall i :: 0 <= i < |blocks| ==> |blocks[i]| == 4
    requires k < |blocks|
    ensures |Concat(blocks)| == 4 * |blocks|
    ensures Concat(blocks)[4 * k .. 4 * k + 4] == blocks[k]
    decreases |blocks|
  {
    var n := |blocks| - 1;
    var init := blocks[..n];
    ConcatLength(blocks);
    ConcatLength(init);
    if k == n {
      assert (Concat(init) + blocks[n])[4 * k .. 4 * k + 4] == blocks[n];
    } else {
      ConcatAt(init, k);
      assert (Concat(init) + blocks[n])[4 * k .. 4 * k + 4] == Concat(init)[4 * k .. 4 * k + 4];
    }
  }

  /** Entry k's method takes lines 4k to 4k + 3 of the impl body. */
  lemma ImplBodyAt(es: seq<Entry>, k: nat)
    requires k < |es|
    ensures ImplBody(es)[4 * k .. 4 * k + 4] == ImplMethod(ModulePrefix(es[k].owner.name), es[k].func)
  {
    ConcatAt(Methods(es), k);
  }

  /** The method of an entry: its signature line, a brace, the forwarding call, a brace. */
  lemma MethodLines(prefix: string, f: Function)
    ensures |ImplMethod(prefix, f)| == 4
    ensures ImplMethod(prefix, f)[0] == Header(f) && ImplMethod(prefix, f)[1] == "    {"
    ensures ImplMethod(prefix, f)[2] == ForwardLine(prefix, f) && ImplMethod(prefix, f)[3] == "    }"
  {
  }

  /** Line 1 + k of the trait is the declaration of entry k. */
  lemma TraitBlockAt(name: string, ms: seq<Module>, isAsync: bool, k: nat)
    requires k < |Entries(ms, isAsync)|
    ensures |TraitBlock(name, ms, isAsync)| == 2 + |Entries(ms, isAsync)|
    ensures TraitBlock(name, ms, isAsync)[1 + k] == TraitLine(Entries(ms, isAsync)[k].func)
  {
    var es := Entries(ms, isAsync);
    assert TraitBlock(name, ms, isAsync)[1 + k] == TraitBody(es)[k];
  }

  /** Line i of the impl body is line 1 + i of the impl. */
  lemma ImplBlockAt(name: string, ms: seq<Module>, isAsync: bool, i: nat)
    requires i < 4 * |Entries(ms, isAsync)|
    ensures |ImplBlock(name, ms, isAsync)| == 2 + 4 * |Entries(ms, isAsync)|
    ensures ImplBlock(name, ms, isAsync)[1 + i] == ImplBody(Entries(ms, isAsync))[i]
  {
  }

  /** The four lines of block k of blocks of four lines are lines 4k to 4k + 3. */
  lemma ConcatLines(blocks: seq<seq<string>>, k: nat)
    requires forall i :: 0 <= i < |blocks| ==> |blocks[i]| == 4
    requires k < |blocks|
    ensures |Concat(blocks)| == 4 * |blocks|
    ensures Concat(blocks)[4 * k] == blocks[k][0] && Concat(blocks)[4 * k + 1] == blocks[k][1]
    ensures Concat(blocks)[4 * k + 2] == blocks[k][2] && Concat(blocks)[4 * k + 3] == blocks[k][3]
  {
    ConcatAt(blocks, k);
    var s := Concat(blocks)[4 * k .. 4 * k + 4];
    assert Concat(blocks)[4 * k] == s[0] && Concat(blocks)[4 * k + 1] == s[1];
    assert Concat(blocks)[4 * k + 2] == s[2] && Concat(blocks)[4 * k + 3] == s[3];
  }

  lemma MethodsShape(es: seq<Entry>)
    ensures forall i :: 0 <= i < |es| ==> |Methods(es)[i]| == 4
  {
  }

  /** Lines 4k to 4k + 3 of the impl body are the signature, the braces and the call of entry k. */
  lemma ImplBodyLines(es: seq<Entry>, k: nat)
    requires k < |es|
    ensures ImplBody(es)[4 * k] == Header(es[k].func)
    ensures ImplBody(es)[4 * k + 1] == "    {" && ImplBody(es)[4 * k + 3] == "    }"
    ensures ImplBody(es)[4 * k + 2] == ForwardLine(ModulePrefix(es[k].owner.name), es[k].func)
  {
    var bs := Methods(es);
    MethodsShape(es);
    MethodLines(ModulePrefix(es[k].owner.name), es[k].func);
    assert bs[k] == ImplMethod(ModulePrefix(es[k].owner.name), es[k].func);
    ConcatLines(bs, k);
  }

  /**
   A pass with k entries prints a trait of 2 + k lines and an impl of
   2 + 4k lines; entry k's impl signature is its trait line without the
   `;`, followed by the braces around its forwarding call.
   */
  lemma BlockShape(name: string, ms: seq<Module>, isAsync: bool, k: nat)
    requires k < |Entries(ms, isAsync)|
    ensures |TraitBlock(name, ms, isAsync)| == 2 + |Entries(ms, isAsync)|
    ensures |ImplBlock(name, ms, isAsync)| == 2 + 4 * |Entries(ms, isAsync)|
    ensures TraitBlock(name, ms, isAsync)[1 + k] == ImplBlock(name, ms, isAsync)[1 + 4 * k] + ";"
    ensures ImplBlock(name, ms, isAsync)[2 + 4 * k] == "    {" && ImplBlock(name, ms, isAsync)[4 + 4 * k] == "    }"
    ensures ImplBlock(name, ms, isAsync)[3 + 4 * k]
         == ForwardLine(ModulePrefix(Entries(ms, isAsync)[k].owner.name), Entries(ms, isAsync)[k].func)
  {
    var e := Entries(ms, isAsync)[k];
    var es := Entries(ms, isAsync);
    TraitBlockAt(name, ms, isAsync, k);
    ImplBlockAt(name, ms, isAsync, 4 * k);
    ImplBlockAt(name, ms, isAsync, 4 * k + 1);
    ImplBlockAt(name, ms, isAsync, 4 * k + 2);
    ImplBlockAt(name, ms, isAsync, 4 * k + 3);
    ImplBodyLines(es, k);
  }

  /** A forwarding call ends in `.await` exactly when the function has a qualifier. */
  lemma ForwardAwait(prefix: string, f: Function)
    ensures EndsWith(ForwardLine(prefix, f), ".await") <==> Truthy(f.asyncPref)
  {
    var call := "        " + prefix + CallName(f.name) + CallParams(f.parameters);
    assert call[|call| - 1] == ')';
    if Truthy(f.asyncPref) {
      assert ForwardLine(prefix, f) == call + ".await";
      assert (call + ".await")[|call + ".await"| - 6..] == ".await";
    } else {
      assert ForwardLine(prefix, f) == call;
    }
  }

  /** In the async pass every call is awaited, in the other none is. */
  lemma PassAwait(ms: seq<Module>, isAsync: bool, k: nat)
    requires k < |Entries(ms, isAsync)|
    ensures EndsWith(ForwardLine(ModulePrefix(Entries(ms, isAsync)[k].owner.name), Entries(ms, isAsync)[k].func), ".await")
        <==> isAsync
  {
    var e := Entries(ms, isAsync)[k];
    EntriesMember(ms, isAsync, e);
    ForwardAwait(ModulePrefix(e.owner.name), e.func);
  }

  // ---------------------------------------------------------------------
  // Names and arguments

  /** A name without `<` is called as it is. */
  lemma CallNamePlain(x: string)
    requires '<' !in x
    ensures CallName(x) == x
  {
    NotContainsHead(x, "<");
    ReplaceAllAbsent(x, "<", "::<");
  }

  /** A generic name `x<y>` is called with the turbofish `x::<y>`. */
  lemma CallNameGeneric(x: string, y: string)
    requires '<' !in x && '<' !in y
    ensures CallName(x + "<" + y + ">") == x + "::<" + y + ">"
  {
    assert x + "<" + y + ">" == x + ("<" + (y + ">"));
    ReplaceAllPlain(x, "<" + (y + ">"), "<", "::<");
    assert StartsWith("<" + (y + ">"), "<");
    assert ("<" + (y + ">"))[1..] == y + ">";
    NotContainsHead(y + ">", "<");
    ReplaceAllAbsent(y + ">", "<", "::<");
  }

  /** A character missing from every piece is missing from every name taken from them. */
  lemma {:induction false} NamesAvoid(pieces: seq<string>, c: char)
    requires forall j :: 0 <= j < |pieces| ==> c !in pieces[j]
    ensures forall k :: 0 <= k < |NamesOf(pieces)| ==> c !in NamesOf(pieces)[k]
    decreases |pieces|
  {
    if pieces != [] {
      NamesAvoid(pieces[1..], c);
      if ':' in pieces[0] && c in Split(pieces[0], ':')[0] {
        SplitKeeps(pieces[0], ':', 0, c);
      }
    }
  }

  /** A word that can stand on either side of a `:` in a parameter list: no `(`, `,` or `:`. */
  predicate Word(w: string) {
    '(' !in w && ',' !in w && ':' !in w
  }

  /** The name of a binding `x: t` is `x`. */
  lemma NameOfBinding(x: string, t: string)
    requires ':' !in x
    ensures Split(x + ": " + t, ':')[0] == x
  {
    assert x + ": " + t == x + [':'] + (" " + t);
    SplitAt(x, " " + t, ':');
  }

  lemma NamesOfBinding(x: string, t: string, rest: seq<string>)
    requires ':' !in x
    ensures NamesOf([x + ": " + t] + rest) == [x] + NamesOf(rest)
  {
    NameOfBinding(x, t);
    assert ':' in x + ": " + t by {
      assert (x + ": " + t)[|x|] == ':';
    }
    assert ([x + ": " + t] + rest)[1..] == rest;
  }

  lemma NamesOfReceiver(r: string, rest: seq<string>)
    requires ':' !in r
    ensures NamesOf([r] + rest) == NamesOf(rest)
  {
    assert ([r] + rest)[1..] == rest;
  }

  /** Removing the opening parenthesis of a list whose body has none. */
  lemma OpenParen(body: string)
    requires '(' !in body
    ensures Remove("(" + body, '(') == body
  {
    RemoveConcat("(", body, '(');
    RemoveAbsent(body, '(');
  }

  /** A list of two pieces: the `(` goes and the single `,` separates them. */
  lemma PiecesOf(a: string, b: string)
    requires '(' !in a && '(' !in b && ',' !in a && ',' !in b
    ensures Split(Remove("(" + (a + [','] + b), '('), ',') == [a, b]
  {
    OpenParen(a + [','] + b);
    SplitAt(a, b, ',');
    SplitNoSep(b, ',');
  }

  lemma PiecesTwo(x: string, t: string, y: string, u: string)
    requires Word(x) && Word(t) && Word(y) && Word(u)
    ensures Split(Remove("(" + x + ": " + t + ", " + y + ": " + u + ")", '('), ',')
         == [x + ": " + t, " " + y + ": " + (u + ")")]
  {
    var first := x + ": " + t;
    var second := " " + y + ": " + (u + ")");
    assert "(" + x + ": " + t + ", " + y + ": " + u + ")" == "(" + (first + [','] + second);
    PiecesOf(first, second);
  }

  lemma NamesTwo(x: string, t: string, y: string, u: string)
    requires Word(x) && Word(y)
    ensures NamesOf([x + ": " + t, " " + y + ": " + (u + ")")]) == [x, " " + y]
  {
    NamesOfBinding(x, t, [" " + y + ": " + (u + ")")]);
    NamesOfBinding(" " + y, u + ")", []);
  }

  /** Two normalised bindings forward as `(x, y)`: the second name keeps the space after its comma. */
  lemma ParamNamesTwo(x: string, t: string, y: string, u: string)
    requires Word(x) && Word(t) && Word(y) && Word(u)
    ensures ParamNames("(" + x + ": " + t + ", " + y + ": " + u + ")") == [x, " " + y]
  {
    PiecesTwo(x, t, y, u);
    NamesTwo(x, t, y, u);
  }

  lemma JoinTwo(x: string, y: string)
    ensures "(" + Join(",", [x, " " + y]) + ")" == "(" + x + ", " + y + ")"
  {
    assert Join(",", [x, " " + y][1..]) == " " + y;
  }

  /** ... and the call reads `(x, y)`. */
  lemma CallParamsTwo(x: string, t: string, y: string, u: string)
    requires Word(x) && Word(t) && Word(y) && Word(u)
    ensures CallParams("(" + x + ": " + t + ", " + y + ": " + u + ")") == "(" + x + ", " + y + ")"
  {
    ParamNamesTwo(x, t, y, u);
    JoinTwo(x, y);
  }

  lemma PiecesReceiver(r: string, x: string, t: string)
    requires Word(r) && Word(x) && Word(t)
    ensures Split(Remove("(" + r + ", " + x + ": " + t + ")", '('), ',') == [r, " " + x + ": " + (t + ")")]
  {
    var second := " " + x + ": " + (t + ")");
    assert "(" + r + ", " + x + ": " + t + ")" == "(" + (r + [','] + second);
    PiecesOf(r, second);
  }

  /** A receiver such as `&self` has no `:` and is not forwarded. */
  lemma ParamNamesReceiver(r: string, x: string, t: string)
    requires Word(r) && Word(x) && Word(t)
    ensures ParamNames("(" + r + ", " + x + ": " + t + ")") == [" " + x]
  {
    PiecesReceiver(r, x, t);
    NamesOfReceiver(r, [" " + x + ": " + (t + ")")]);
    NamesOfBinding(" " + x, t + ")", []);
  }

  /** ... so the call after a receiver reads `( x)`. */
  lemma CallParamsReceiver(r: string, x: string, t: string)
    requires Word(r) && Word(x) && Word(t)
    ensures CallParams("(" + r + ", " + x + ": " + t + ")") == "( " + x + ")"
  {
    ParamNamesReceiver(r, x, t);
  }

  /** A method with only a receiver forwards no argument. */
  lemma ParamNamesReceiverOnly(r: string)
    requires Word(r)
    ensures ParamNames("(" + r + ")") == []
    ensures CallParams("(" + r + ")") == "()"
  {
    assert "(" + r + ")" == "(" + (r + ")");
    OpenParen(r + ")");
    SplitNoSep(r + ")", ',');
    NamesOfReceiver(r + ")", []);
  }

  /** A single binding forwards its name alone: `(x: t)` calls with `(x)`. */
  lemma ParamNamesOne(x: string, t: string)
    requires Word(x) && Word(t)
    ensures ParamNames("(" + x + ": " + t + ")") == [x]
    ensures CallParams("(" + x + ": " + t + ")") == "(" + x + ")"
  {
    var body := x + ": " + (t + ")");
    assert "(" + x + ": " + t + ")" == "(" + body;
    OpenParen(body);
    SplitNoSep(body, ',');
    NamesOfBinding(x, t + ")", []);
    assert [x + ": " + (t + ")")] + [] == [body];
  }

  // ---------------------------------------------------------------------
  // Lines of scanned signatures

  lemma ScannedAsync(name: string, parameters: string, ret: string)
    requires !AllSpace(ret)
    ensures MakeFunction(Some("async "), name, parameters, Some(ret))
         == Function(Some("async"), Strip(name), Normalise(parameters), Some(Strip(ret)))
  {
    StripAsync();
    StripEmpty(ret);
  }

  lemma AsyncTraitLine(f: Function)
    requires f.asyncPref == Some("async") && Truthy(f.returnType)
    ensures TraitLine(f) == "    async fn " + f.name + f.parameters + " -> " + f.returnType.value + ";"
  {
    assert AsyncPrefix(f) == "async ";
    assert "    " + "async " + "fn " == "    async fn ";
  }

  /** A scanned async signature with a return type declares `async fn name(params) -> ret;`. */
  lemma TraitLineAsync(name: string, parameters: string, ret: string)
    requires !AllSpace(ret)
    ensures TraitLine(MakeFunction(Some("async "), name, parameters, Some(ret)))
         == "    async fn " + Strip(name) + Normalise(parameters) + " -> " + Strip(ret) + ";"
  {
    ScannedAsync(name, parameters, ret);
    StripEmpty(ret);
    AsyncTraitLine(Function(Some("async"), Strip(name), Normalise(parameters), Some(Strip(ret))));
  }

  /** A scanned signature with neither qualifier nor return type declares `fn name(params);`. */
  lemma TraitLinePlain(name: string, parameters: string)
    ensures TraitLine(MakeFunction(None, name, parameters, None)) == "    fn " + Strip(name) + Normalise(parameters) + ";"
  {
    var f := Function(None, Strip(name), Normalise(parameters), None);
    assert MakeFunction(None, name, parameters, None) == f;
    PlainTraitLine(f);
  }

  lemma PlainTraitLine(f: Function)
    requires f.asyncPref == None && f.returnType == None
    ensures TraitLine(f) == "    fn " + f.name + f.parameters + ";"
  {
    assert "    " + "" + "fn " == "    fn ";
  }

  /** A return type of only whitespace is kept as present but empty, and so writes no arrow, as if it were missing. */
  lemma TraitLineBlankReturn(asyncPref: Option<string>, name: string, parameters: string, ret: string)
    requires AllSpace(ret)
    ensures TraitLine(MakeFunction(asyncPref, name, parameters, Some(ret)))
         == TraitLine(MakeFunction(asyncPref, name, parameters, None))
  {
    StripEmpty(ret);
  }

  lemma PlainForwardLine(prefix: string, f: Function)
    requires f.asyncPref == None
    ensures ForwardLine(prefix, f) == "        " + prefix + CallName(f.name) + CallParams(f.parameters)
  {
  }

  /**
   End to end: a synchronous two-parameter signature written over two lines
   with a trailing comma, in a module named `n`, forwards as `n::name(x, y)`.
   */
  lemma ForwardTwoExample(n: string, name: string, x: string, t: string, y: string, u: string)
    requires n != ""
    requires Plain(x) && Plain(t) && Plain(y) && Plain(u)
    requires Word(x) && Word(t) && Word(y) && Word(u)
    ensures ForwardLine(ModulePrefix(Some(n)), MakeFunction(None, name, "(" + x + ":" + t + ",\n " + y + ":" + u + ",)", None))
         == "        " + n + "::" + CallName(Strip(name)) + "(" + x + ", " + y + ")"
  {
    LayoutFunction(name, x, t, y, u);
    ForwardTwo(n, Strip(name), x, t, y, u);
  }

  lemma LayoutFunction(name: string, x: string, t: string, y: string, u: string)
    requires Plain(x) && Plain(t) && Plain(y) && Plain(u)
    ensures MakeFunction(None, name, "(" + x + ":" + t + ",\n " + y + ":" + u + ",)", None)
         == Function(None, Strip(name), "(" + x + ": " + t + ", " + y + ": " + u + ")", None)
  {
    NormaliseLayoutExample(x, t, y, u);
  }

  lemma ForwardTwo(n: string, name: string, x: string, t: string, y: string, u: string)
    requires n != ""
    requires Word(x) && Word(t) && Word(y) && Word(u)
    ensures ForwardLine(ModulePrefix(Some(n)), Function(None, name, "(" + x + ": " + t + ", " + y + ": " + u + ")", None))
         == "        " + n + "::" + CallName(name) + "(" + x + ", " + y + ")"
  {
    var f := Function(None, name, "(" + x + ": " + t + ", " + y + ": " + u + ")", None);
    CallParamsTwo(x, t, y, u);
    PlainForwardLine(n + "::", f);
    var call := CallName(name);
    assert "        " + (n + "::") + call + ("(" + x + ", " + y + ")")
        == "        " + n + "::" + call + "(" + x + ", " + y + ")";
  }

  lemma AsyncBareTraitLine(f: Function)
    requires f.asyncPref == Some("async") && f.returnType == None
    ensures TraitLine(f) == "    async fn " + f.name + f.parameters + ";"
  {
    assert AsyncPrefix(f) == "async ";
    assert "    " + "async " + "fn " == "    async fn ";
  }

  lemma AsyncOneFunction(name: string, x: string, t: string)
    requires Plain(x) && Plain(t)
    ensures MakeFunction(Some("async "), name, "(" + x + ":" + t + ")", None)
         == Function(Some("async"), Strip(name), "(" + x + ": " + t + ")", None)
  {
    StripAsync();
    NormaliseOneExample(x, t);
  }

  lemma ForwardOneAsync(n: string, name: string, x: string, t: string)
    requires n != ""
    requires Word(x) && Word(t)
    ensures ForwardLine(ModulePrefix(Some(n)), Function(Some("async"), name, "(" + x + ": " + t + ")", None))
         == "        " + n + "::" + CallName(name) + "(" + x + ").await"
  {
    var f := Function(Some("async"), name, "(" + x + ": " + t + ")", None);
    ParamNamesOne(x, t);
    AsyncForwardLine(n + "::", f);
    AwaitedOneLine(n, CallName(name), x);
  }

  lemma AsyncForwardLine(prefix: string, f: Function)
    requires Truthy(f.asyncPref)
    ensures ForwardLine(prefix, f) == "        " + prefix + CallName(f.name) + CallParams(f.parameters) + ".await"
  {
  }

  lemma AwaitedOneLine(n: string, call: string, x: string)
    ensures "        " + (n + "::") + call + ("(" + x + ")") + ".await" == "        " + n + "::" + call + "(" + x + ").await"
  {
  }

  lemma AsyncOneLine(name: string, x: string, t: string)
    ensures "    async fn " + name + ("(" + x + ": " + t + ")") + ";" == "    async fn " + name + "(" + x + ": " + t + ");"
  {
  }

  /**
   End to end: `mod.rs` in a directory declaring one async function with one
   parameter. The module is named after the directory's path, the trait
   declares `async fn name(x: t);` and the forwarding call is awaited.
   */
  lemma ModRsAsyncExample(dirs: seq<string>, name: string, x: string, t: string)
    requires ValidPath(FilePath(false, dirs))
    requires Plain(x) && Plain(t) && Word(x) && Word(t)
    ensures var m := ParseFile(FilePath(false, dirs + ["mod.rs"]), [Captures(Some("async "), name, "(" + x + ":" + t + ")", None)]);
      && m.name == Some(PathText(FilePath(false, dirs)))
      && TraitLine(m.functions[0]) == "    async fn " + Strip(name) + "(" + x + ": " + t + ");"
      && ForwardLine(ModulePrefix(m.name), m.functions[0])
         == "        " + PathText(FilePath(false, dirs)) + "::" + CallName(Strip(name)) + "(" + x + ").await"
  {
    var n := PathText(FilePath(false, dirs));
    var f := Function(Some("async"), Strip(name), "(" + x + ": " + t + ")", None);
    var c := Captures(Some("async "), name, "(" + x + ":" + t + ")", None);
    ParseFileOne(FilePath(false, dirs + ["mod.rs"]), c);
    ModuleNameOfModRs(false, dirs);
    PathTextNonEmpty(FilePath(false, dirs));
    AsyncOneFunction(name, x, t);
    assert ParseFile(FilePath(false, dirs + ["mod.rs"]), [c]) == Module(Some(n), [f]);
    AsyncBareTraitLine(f);
    AsyncOneLine(Strip(name), x, t);
    ForwardOneAsync(n, Strip(name), x, t);
  }
}
