/** The executor's table of compiled modules (src/modules/mod.rs). Script execution is opaque: a compiled
    module is its source. */
module Modules {
  import opened Resources

  datatype CompiledModule = CompiledModule(source: string, name: string, namespace: string)

  /** Compilation decodes the payload and nothing more. */
  function CompiledOf(m: Module): Option<CompiledModule> {
    match m.payload
    case None => None
    case Some(source) => Some(CompiledModule(source, m.name, m.namespace))
  }

  /** The sources of those of the named modules that the executor has, in order. */
  function SourcesOf(modules: map<string, CompiledModule>, names: seq<string>, namespace: string): seq<string> {
    if names == [] then []
    else
      var front, key := SourcesOf(modules, names[..|names| - 1], namespace), ScopedKey(namespace, names[|names| - 1]);
      if key in modules then front + [modules[key].source] else front
  }

  class ModuleExecutor {
    var modules: map<string, CompiledModule>

    constructor ()
      ensures modules == map[]
    {
      modules := map[];
    }

    method AddModule(m: Module) returns (ok: bool)
      modifies this
      ensures ok == m.payload.Some?
      ensures modules ==
              if ok then old(modules)[ScopedKey(m.namespace, m.name) := CompiledModule(m.payload.value, m.name, m.namespace)]
              else old(modules)
    {
      var compiled := CompiledOf(m);
      if compiled.None? {
        return false;
      }
      modules := modules[ScopedKey(m.namespace, m.name) := compiled.value];
      ok := true;
    }

    method RemoveModule(namespace: string, name: string)
      modifies this
      ensures modules == old(modules) - {ScopedKey(namespace, name)}
    {
      modules := modules - {ScopedKey(namespace, name)};
    }

    method GetModule(namespace: string, name: string) returns (m: Option<CompiledModule>)
      ensures m == if ScopedKey(namespace, name) in modules then Some(modules[ScopedKey(namespace, name)]) else None
    {
      var key := ScopedKey(namespace, name);
      m := if key in modules then Some(modules[key]) else None;
    }

    method CreateContext(names: seq<string>, namespace: string) returns (sources: seq<string>)
      ensures sources == SourcesOf(modules, names, namespace)
    {
      sources := [];
      for i := 0 to |names|
        invariant sources == SourcesOf(modules, names[..i], namespace)
      {
        assert names[..i + 1][..i] == names[..i];
        var m := GetModule(namespace, names[i]);
        if m.Some? {
          sources := sources + [m.value.source];
        }
      }
      assert names[..|names|] == names;
    }
  }
}
