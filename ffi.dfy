/**
 * The foreign-function router (src/ffi/mod.rs). A module path
 * `language.module.path` names a language backend and a module inside it;
 * loading the module records, for every function it exports, which
 * language and module it came from, and a later call is forwarded to that
 * backend under the dotted name `module.function`.
 *
 * A language backend is an oracle here: `Protocol` gives what loading a
 * module returns and what a call returns. The only language the router can
 * create a backend for is "python".
 */
module Ffi {
  import opened Wrappers
  import opened Text
  import opened Syntax

  /** What a language backend answers: the functions a module exports, and the result of a call. */
  datatype Protocol = Protocol(
    load: string -> Result<seq<string>, string>,
    call: (string, seq<Value>) -> Result<Value, string>)

  /** The language of a module path: the text before its first dot. */
  function Language(path: string): (r: string)
    ensures '.' in path ==> r == path[..IndexOf(path, '.')]
    ensures '.' !in path ==> r == path
  {
    if '.' in path then
      SplitAtFirst(path, '.', IndexOf(path, '.'));
      Split(path, '.')[0]
    else
      SplitWithoutSeparator(path, '.');
      Split(path, '.')[0]
  }

  /** The module inside the language: the remaining dotted parts, joined again. */
  function ModuleName(path: string): (r: string)
    ensures '.' in path ==> r == path[IndexOf(path, '.') + 1..]
    ensures '.' !in path ==> r == ""
  {
    if '.' in path then
      SplitAtFirst(path, '.', IndexOf(path, '.'));
      Join(Split(path, '.')[1..], ".")
    else
      SplitWithoutSeparator(path, '.');
      Join(Split(path, '.')[1..], ".")
  }

  /** A path is its language and its module joined by a dot; a path without a dot is all language. */
  lemma PathParts(path: string)
    ensures '.' in path ==> Language(path) + "." + ModuleName(path) == path && '.' !in Language(path)
    ensures '.' !in path ==> Language(path) == path && ModuleName(path) == ""
  {
    if '.' in path {
      SplitAtFirst(path, '.', IndexOf(path, '.'));
    } else {
      SplitWithoutSeparator(path, '.');
    }
  }

  /** `function_to_module` after every function of `fs` is recorded as living in (`lang`, `m`). */
  function Registered(table: map<string, (string, string)>, fs: seq<string>, lang: string, m: string): (r: map<string, (string, string)>)
    ensures r.Keys == table.Keys + set f | f in fs
    ensures forall f :: f in fs ==> r[f] == (lang, m)
    ensures forall f :: f in table && f !in fs ==> r[f] == table[f]
    decreases |fs|
  {
    if |fs| == 0 then table
    else Registered(table, fs[..|fs| - 1], lang, m)[fs[|fs| - 1] := (lang, m)]
  }

  /** Rendering of `FFIError::FunctionNotFound`. */
  function FunctionNotFound(f: string): string { "Function not found: " + f }

  class Backend {
    /** Language name to its backend. */
    var modules: map<string, Protocol>
    /** Function name to (language, module). */
    var functionToModule: map<string, (string, string)>
    /** The backend `PythonFFI::new()` creates. */
    const python: Protocol

    /** `FFIBackend::new()`: nothing loaded. */
    constructor (python: Protocol)
      ensures modules == map[] && functionToModule == map[] && this.python == python
    {
      modules := map[];
      functionToModule := map[];
      this.python := python;
    }

    /** Only python backends exist, and every recorded function's language has one. */
    ghost predicate Valid()
      reads this
    {
      (forall l :: l in modules ==> l == "python" && modules[l] == python) &&
      (forall f :: f in functionToModule ==> functionToModule[f].0 in modules)
    }

    /** `load_module`. */
    method LoadModule(path: string) returns (r: Result<seq<string>, string>)
      requires Valid()
      modifies this
      ensures Valid()
      ensures var lang := Language(path);
        lang !in old(modules) && lang != "python" ==>
          r == Err("Unsupported language: " + lang) &&
          modules == old(modules) && functionToModule == old(functionToModule)
      ensures var lang := Language(path);
        lang in old(modules) || lang == "python" ==>
          modules == old(modules)[lang := python] &&
          (match python.load(ModuleName(path))
           case Err(e) => r == Err(e) && functionToModule == old(functionToModule)
           case Ok(fs) =>
             (r == Ok(fs) && functionToModule == Registered(old(functionToModule), fs, lang, ModuleName(path))))
    {
      var language := Language(path);
      var moduleName := ModuleName(path);
      if language !in modules {
        if language == "python" {
          modules := modules[language := python];
        } else {
          return Err("Unsupported language: " + language);
        }
      }
      var loaded := modules[language].load(moduleName);
      if loaded.Err? {
        return Err(loaded.error);
      }
      Register(loaded.value, language, moduleName);
      return Ok(loaded.value);
    }

    /** The `for_each` that records every function of `fs` as living in (`lang`, `m`). */
    method Register(fs: seq<string>, lang: string, m: string)
      modifies this
      ensures modules == old(modules)
      ensures functionToModule == Registered(old(functionToModule), fs, lang, m)
    {
      for i := 0 to |fs|
        invariant modules == old(modules)
        invariant functionToModule == Registered(old(functionToModule), fs[..i], lang, m)
      {
        assert fs[..i + 1][..i] == fs[..i];
        functionToModule := functionToModule[fs[i] := (lang, m)];
      }
      assert fs[..|fs|] == fs;
    }

    /** `call_function`. */
    function CallFunction(f: string, args: seq<Value>): (r: Result<Value, string>)
      reads this
      ensures f !in functionToModule ==> r == Err(FunctionNotFound(f))
      ensures f in functionToModule && functionToModule[f].0 !in modules ==>
        r == Err("Language not loaded: " + functionToModule[f].0)
      ensures f in functionToModule && functionToModule[f].0 in modules ==>
        r == modules[functionToModule[f].0].call(functionToModule[f].1 + "." + f, args)
    {
      if f !in functionToModule then Err(FunctionNotFound(f))
      else
        var (language, moduleName) := functionToModule[f];
        if language !in modules then Err("Language not loaded: " + language)
        else modules[language].call(moduleName + "." + f, args)
    }

    /**
     * In a valid router a known function always reaches the python backend,
     * under its module-qualified name: "Language not loaded" cannot happen.
     */
    lemma KnownFunctionReachesPython(f: string, args: seq<Value>)
      requires Valid()
      requires f in functionToModule
      ensures CallFunction(f, args) == python.call(functionToModule[f].1 + "." + f, args)
    {
    }
  }
}
