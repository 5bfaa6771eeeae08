/** Locating external tools (`torii/_toolchain/__init__.py`). The process environment is
    passed in as a map and `shutil.which` as a predicate saying whether a command or path
    resolves to an executable. */
module Toolchain {
  import opened Wrappers
  import opened Text

  /** Python's `str.upper()` restricted to ASCII: other characters are unchanged. */
  function UpperChar(c: char): char {
    if 'a' <= c <= 'z' then (c as int - 32) as char else c
  }

  function Upper(s: string): string {
    seq(|s|, i requires 0 <= i < |s| => UpperChar(s[i]))
  }

  /** Python's `s.replace(from, to)` for single characters. */
  function Replace(s: string, from: char, to: char): string {
    seq(|s|, i requires 0 <= i < |s| => if s[i] == from then to else s[i])
  }

  /** `tool_env_var`: the environment variable that overrides the location of a tool. */
  function ToolEnvVar(name: string): (r: string)
    ensures |r| == |name|
    ensures forall i :: 0 <= i < |r| ==> r[i] != '-' && r[i] != '+' && !('a' <= r[i] <= 'z')
    ensures forall i :: 0 <= i < |r| ==>
      (name[i] == '-' ==> r[i] == '_') &&
      (name[i] == '+' ==> r[i] == 'X') &&
      (name[i] != '-' && name[i] != '+' ==> r[i] == UpperChar(name[i]))
  {
    Replace(Replace(Upper(name), '-', '_'), '+', 'X')
  }

  /** Mapping a name that is already an environment variable name changes nothing. */
  lemma ToolEnvVarIdempotent(name: string)
    ensures ToolEnvVar(ToolEnvVar(name)) == ToolEnvVar(name)
  {
    var once := ToolEnvVar(name);
    var twice := ToolEnvVar(once);
    forall i | 0 <= i < |once|
      ensures twice[i] == once[i]
    {
    }
  }

  /** `_get_tool`: the override from the environment if set, else the bare tool name. */
  function GetTool(env: map<string, string>, name: string): (path: string)
    ensures ToolEnvVar(name) in env ==> path == env[ToolEnvVar(name)]
    ensures ToolEnvVar(name) !in env ==> path == name
  {
    var v := ToolEnvVar(name);
    if v in env then env[v] else name
  }

  datatype ToolNotFound = ToolNotFound(message: string)

  const ViaEnvTail: string := " environment variable"
  const ViaEnvHead: string := " as specified via the "
  const InPathHead: string := " in PATH. Place it directly in PATH or specify path explicitly via the "

  /** The message when the variable is set but its value does not resolve. */
  function NotFoundViaEnv(name: string, path: string, envVar: string): string {
    "Could not find required tool " + (name + (" in " + (path + (ViaEnvHead + (envVar + ViaEnvTail)))))
  }

  /** The message when the variable is unset and the bare name is not on PATH. */
  function NotFoundInPath(name: string, envVar: string): string {
    "Could not find required tool " + (name + (InPathHead + (envVar + ViaEnvTail)))
  }

  predicate EndsWith(s: string, suffix: string) {
    |suffix| <= |s| && s[|s| - |suffix|..] == suffix
  }

  lemma NotFoundViaEnvFacts(name: string, path: string, envVar: string)
    ensures var m := NotFoundViaEnv(name, path, envVar);
      && IsInfix(name, m) && IsInfix(path, m) && IsInfix(envVar, m)
      && EndsWith(m, ViaEnvHead + envVar + ViaEnvTail)
  {
    var m := NotFoundViaEnv(name, path, envVar);
    var p0 := "Could not find required tool ";
    assert InfixAt(name, m, |p0|);
    assert InfixAt(path, m, |p0| + |name| + 4);
    assert InfixAt(envVar, m, |p0| + |name| + 4 + |path| + |ViaEnvHead|);
    assert m[|m| - |ViaEnvHead + envVar + ViaEnvTail|..] == ViaEnvHead + envVar + ViaEnvTail;
  }

  lemma NotFoundInPathFacts(name: string, envVar: string)
    ensures var m := NotFoundInPath(name, envVar);
      && IsInfix(name, m) && IsInfix(envVar, m)
      && !EndsWith(m, ViaEnvHead + envVar + ViaEnvTail)
  {
    var m := NotFoundInPath(name, envVar);
    var p0 := "Could not find required tool ";
    assert InfixAt(name, m, |p0|);
    assert InfixAt(envVar, m, |p0| + |name| + |InPathHead|);
    var suffix := ViaEnvHead + envVar + ViaEnvTail;
    var k := |p0| + |name| + |InPathHead| - |ViaEnvHead|;
    assert |m| - |suffix| == k;
    assert m[k] == 't' != suffix[0];
  }

  /** `has_tool`. */
  function HasTool(env: map<string, string>, which: string -> bool, name: string): bool {
    which(GetTool(env, name))
  }

  /** `require_tool`: the resolved path when `which` finds it, otherwise `ToolNotFound`
      with a message that names the tool and the variable, and tells whether the variable
      was set. */
  function RequireTool(env: map<string, string>, which: string -> bool, name: string): (r: Result<string, ToolNotFound>)
    ensures r.Success? <==> which(GetTool(env, name))
    ensures r.Success? ==> r.value == GetTool(env, name)
    ensures r.Failure? ==> IsInfix(ToolEnvVar(name), r.error.message) && IsInfix(name, r.error.message)
    ensures r.Failure? ==>
      (ToolEnvVar(name) in env <==> EndsWith(r.error.message, ViaEnvHead + ToolEnvVar(name) + ViaEnvTail))
    ensures r.Failure? && ToolEnvVar(name) in env ==> IsInfix(env[ToolEnvVar(name)], r.error.message)
  {
    var envVar := ToolEnvVar(name);
    var path := GetTool(env, name);
    if which(path) then Success(path)
    else if envVar in env then
      NotFoundViaEnvFacts(name, path, envVar);
      Failure(ToolNotFound(NotFoundViaEnv(name, path, envVar)))
    else
      NotFoundInPathFacts(name, envVar);
      Failure(ToolNotFound(NotFoundInPath(name, envVar)))
  }

  /** `has_tool(name)` holds exactly when `require_tool(name)` returns instead of raising. */
  lemma HasToolIffRequireSucceeds(env: map<string, string>, which: string -> bool, name: string)
    ensures HasTool(env, which, name) <==> RequireTool(env, which, name).Success?
  {
  }
}
