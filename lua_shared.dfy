/**
 * The module loader shared by the bot and command Lua states: how a module
 * name becomes a file path, the stack of files being executed that detects
 * circular requires, the module cache, and the error flag that stops all
 * further loading. Running a script is a parameter: its outcome is either
 * an error or the value it returned.
 */
module LuaShared {
  import opened Wrappers

  /** `ends_with`, as written: the two strings compared from their last characters backwards. */
  function EndsWith(value: string, ending: string): (r: bool)
    ensures r <==> |ending| <= |value| && value[|value| - |ending|..] == ending
  {
    if |ending| > |value| then false
    else
      var ok := forall i :: 0 <= i < |ending| ==> Back(ending, i) == Back(value, i);
      assert ok <==> value[|value| - |ending|..] == ending by {
        if ok {
          forall k | 0 <= k < |ending|
            ensures value[|value| - |ending|..][k] == ending[k]
          {
            var i := |ending| - 1 - k;
            assert Back(ending, i) == Back(value, i);
          }
        }
      }
      ok
  }

  /** The i-th character counted from the end. */
  function Back(s: string, i: nat): char
    requires i < |s|
  {
    s[|s| - 1 - i]
  }

  /** One `std::replace`: every `from` becomes `to`. */
  method ReplaceAll(s: string, from: char, to: char) returns (t: string)
    ensures |t| == |s|
    ensures forall i :: 0 <= i < |s| ==> t[i] == if s[i] == from then to else s[i]
  {
    t := s;
    var i := 0;
    while i < |t|
      invariant 0 <= i <= |t| == |s|
      invariant forall k :: 0 <= k < i ==> t[k] == if s[k] == from then to else s[k]
      invariant forall k :: i <= k < |t| ==> t[k] == s[k]
    {
      if t[i] == from {
        t := t[i := to];
      }
      i := i + 1;
    }
  }

  /** A module name's dots and backslashes become slashes. */
  function Slashed(c: char): char
  {
    if c == '.' || c == '\\' then '/' else c
  }

  /** The relative file a module name stands for. */
  function ModuleFile(name: string): (r: string)
    ensures |r| == |name| + 4 && EndsWith(r, ".lua")
    ensures forall i :: 0 <= i < |name| ==> r[i] == Slashed(name[i]) && r[i] != '.' && r[i] != '\\'
  {
    seq(|name|, i requires 0 <= i < |name| => Slashed(name[i])) + ".lua"
  }

  /**
   * `FindLuaModule`: the name mapped to a file, searched for from the
   * current script's directory and then from the root. The two searches
   * walk the file system and are given by their answers (empty when
   * nothing matched).
   */
  method FindLuaModule(name: string, fromCur: string, fromRoot: string) returns (file: string, target: string)
    ensures target == ModuleFile(name)
    ensures file == if fromCur != "" then fromCur else fromRoot
  {
    var t := ReplaceAll(name, '.', '/');
    t := ReplaceAll(t, '\\', '/');
    target := t + ".lua";
    file := if fromCur != "" then fromCur else fromRoot;
  }

  /**
   * `std::filesystem::absolute` of a non-empty path, with working directory
   * cwd. (Of an empty path it throws "cannot make absolute path", so the
   * not-found branch of `require` that follows it cannot be reached.)
   */
  function Absolute(cwd: string, p: string): (r: string)
    requires |cwd| > 0 && cwd[0] == '/' && p != ""
    ensures |r| > 0 && r[0] == '/'
    ensures |p| > 0 && p[0] == '/' ==> r == p
  {
    if |p| > 0 && p[0] == '/' then p else cwd + "/" + p
  }

  /** A Lua table, by identity. */
  datatype Table = Table(id: nat) | Nil

  /** How running a script ends: a Lua error, or the value of its final `return`. */
  datatype Outcome = Failed(message: string) | ReturnedTable(table: Table) | ReturnedOther

  /** The text of the circular-dependency error: the stack, then the path required again. */
  function Chain(stack: seq<string>, path: string): string
  {
    if stack == [] then "    " + path
    else "    " + stack[0] + "->\n" + Chain(stack[1..], path)
  }

  class LuaState {
    /** `m_fileStack`: the files being executed, outermost first. */
    var fileStack: seq<string>
    /** `m_modules`, by absolute path (and `"lualib_bundle"`). */
    var modules: map<string, Table>
    var alreadyErrored: bool
    /** The id the next `create_table` hands out. */
    var nextTable: nat
    /** The process's working directory. */
    const cwd: string

    ghost predicate Valid()
      reads this
    {
      |cwd| > 0 && cwd[0] == '/' &&
      forall p :: p in modules && modules[p].Table? ==> modules[p].id < nextTable
    }

    constructor (cwd: string)
      requires |cwd| > 0 && cwd[0] == '/'
      ensures Valid() && fileStack == [] && modules == map[] && !alreadyErrored && this.cwd == cwd
    {
      this.cwd := cwd;
      fileStack, modules, alreadyErrored, nextTable := [], map[], false, 0;
    }

    /** `m_state.create_table()`: a table no module holds yet. */
    method CreateTable() returns (t: Table)
      requires Valid()
      modifies this`nextTable
      ensures Valid() && t == Table(old(nextTable)) && nextTable == old(nextTable) + 1
      ensures forall p :: p in modules ==> modules[p] != t
    {
      t := Table(nextTable);
      nextTable := nextTable + 1;
    }

    /**
     * `ExecuteFile` as written. Nothing runs after an error or for a file
     * already loaded. Otherwise the file is pushed; an error sets the flag
     * and returns before the pop, so the file stays on the stack; a
     * result is cached (a fresh table when it is not a table) and the
     * file popped.
     */
    method ExecuteFile(file: string, outcome: Outcome) returns (logged: Option<string>)
      requires Valid() && file != ""
      modifies this`fileStack, this`modules, this`alreadyErrored, this`nextTable
      ensures Valid()
      ensures var path := Absolute(cwd, file);
        if old(alreadyErrored) || path in old(modules) then
          logged == None && fileStack == old(fileStack) && modules == old(modules) && alreadyErrored == old(alreadyErrored) &&
          nextTable == old(nextTable)
        else if outcome.Failed? then
          logged == Some(outcome.message) && alreadyErrored &&
          fileStack == old(fileStack) + [path] && modules == old(modules) && nextTable == old(nextTable)
        else
          logged == None && !alreadyErrored && fileStack == old(fileStack) &&
          path in modules && modules == old(modules)[path := modules[path]] &&
          (outcome.ReturnedTable? ==> modules[path] == outcome.table) &&
          (outcome.ReturnedOther? ==> modules[path] == Table(old(nextTable)))
    {
      var path := Absolute(cwd, file);
      logged := None;
      if alreadyErrored || path in modules {
        return;
      }
      fileStack := fileStack + [path];
      if outcome.Failed? {
        logged := Some(outcome.message);
        alreadyErrored := true;
        return;
      }
      var value: Table;
      if outcome.ReturnedTable? {
        value := outcome.table;
        nextTable := if value.Table? && value.id >= nextTable then value.id + 1 else nextTable;
      } else {
        value := CreateTable();
      }
      modules := modules[path := value];
      fileStack := fileStack[..|fileStack| - 1];
    }

    /** The evidently intended `ExecuteFile`: the file is popped on the error path too. */
    method ExecuteFileCorrected(file: string, outcome: Outcome) returns (logged: Option<string>)
      requires Valid() && file != ""
      modifies this`fileStack, this`modules, this`alreadyErrored, this`nextTable
      ensures Valid() && fileStack == old(fileStack)
      ensures var path := Absolute(cwd, file);
        if old(alreadyErrored) || path in old(modules) then
          logged == None && modules == old(modules) && alreadyErrored == old(alreadyErrored) && nextTable == old(nextTable)
        else if outcome.Failed? then
          logged == Some(outcome.message) && alreadyErrored && modules == old(modules) && nextTable == old(nextTable)
        else
          logged == None && !alreadyErrored &&
          path in modules && modules == old(modules)[path := modules[path]] &&
          (outcome.ReturnedTable? ==> modules[path] == outcome.table) &&
          (outcome.ReturnedOther? ==> modules[path] == Table(old(nextTable)))
    {
      var stack := fileStack;
      logged := ExecuteFile(file, outcome);
      if |fileStack| > |stack| {
        fileStack := fileStack[..|fileStack| - 1];
      }
    }

    /**
     * `require`. `"lualib_bundle"` answers its cache entry (created empty
     * if missing, as `operator[]` does). Any other name is mapped to an
     * absolute path; a path on the stack is a circular dependency; a
     * cached path answers its table without running anything; otherwise
     * the file is executed and its table (or a fresh one) answered.
     */
    method Require(name: string, fromCur: string, fromRoot: string, outcome: Outcome) returns (r: Result<Table>, logged: Option<string>)
      requires Valid()
      modifies this`fileStack, this`modules, this`alreadyErrored, this`nextTable
      ensures Valid() && fileStack == old(fileStack)
      ensures name == "lualib_bundle" ==> logged == None && alreadyErrored == old(alreadyErrored)
      ensures name == "lualib_bundle" ==>
        (name in old(modules) ==> r == Success(old(modules)[name]) && modules == old(modules)) &&
        (name !in old(modules) ==> r == Success(Nil) && modules == old(modules)[name := Nil])
      ensures name != "lualib_bundle" && fromCur == "" && fromRoot == "" ==>
        r == Failure("cannot make absolute path") && logged == None && modules == old(modules) && alreadyErrored == old(alreadyErrored)
      ensures name != "lualib_bundle" && (fromCur != "" || fromRoot != "") ==>
        var path := Absolute(cwd, if fromCur != "" then fromCur else fromRoot);
        (path in old(fileStack) ==>
          r == Failure("Circular dependency:" + Chain(old(fileStack), path)) && logged == None &&
          modules == old(modules) && alreadyErrored == old(alreadyErrored)) &&
        (path !in old(fileStack) && path in old(modules) ==>
          r == Success(old(modules)[path]) && logged == None && modules == old(modules) && alreadyErrored == old(alreadyErrored)) &&
        (path !in old(fileStack) && path !in old(modules) && old(alreadyErrored) ==>
          r == Success(Table(old(nextTable))) && logged == None && modules == old(modules) && alreadyErrored) &&
        (path !in old(fileStack) && path !in old(modules) && !old(alreadyErrored) && outcome.Failed? ==>
          r == Success(Table(old(nextTable))) && logged == Some(outcome.message) && modules == old(modules) && alreadyErrored) &&
        (path !in old(fileStack) && path !in old(modules) && !old(alreadyErrored) && !outcome.Failed? ==>
          r.Success? && logged == None && !alreadyErrored &&
          path in modules && modules == old(modules)[path := r.value] &&
          (outcome.ReturnedTable? ==> r.value == outcome.table) &&
          (outcome.ReturnedOther? ==> r.value == Table(old(nextTable))))
    {
      logged := None;
      if name == "lualib_bundle" {
        if name !in modules {
          modules := modules[name := Nil];
        }
        return Success(modules[name]), None;
      }
      var found, _ := FindLuaModule(name, fromCur, fromRoot);
      if found == "" {
        return Failure("cannot make absolute path"), None;
      }
      var path := Absolute(cwd, found);
      if path in fileStack {
        return Failure("Circular dependency:" + Chain(fileStack, path)), None;
      }
      if path !in modules {
        logged := ExecuteFileCorrected(path, outcome);
        if path in modules {
          r := Success(modules[path]);
        } else {
          var t := CreateTable();
          r := Success(t);
        }
      } else {
        r := Success(modules[path]);
      }
    }

    /** The bookkeeping of `Start`: the cache emptied but for the bundle, the error flag cleared; the file stack is kept. */
    method Restart(bundle: Table)
      requires Valid() && (bundle.Table? ==> bundle.id < nextTable)
      modifies this`modules, this`alreadyErrored
      ensures Valid() && modules == map["lualib_bundle" := bundle] && !alreadyErrored
    {
      modules := map["lualib_bundle" := bundle];
      alreadyErrored := false;
    }
  }

  /** A module required twice runs once: the second call answers what the first did. */
  method RequireTwice(s: LuaState, name: string, fromCur: string, fromRoot: string, first: Outcome, second: Outcome)
    returns (a: Result<Table>, b: Result<Table>)
    requires s.Valid() && s.fileStack == [] && !s.alreadyErrored && !first.Failed?
    modifies s
    ensures b == a
    ensures name == "lualib_bundle" || fromCur != "" || fromRoot != "" ==> a.Success?
  {
    var logged;
    a, logged := s.Require(name, fromCur, fromRoot, first);
    b, logged := s.Require(name, fromCur, fromRoot, second);
  }

  /**
   * As written, a script that fails stays on the file stack, and `Start`
   * does not clear the stack: after a restart, requiring that script
   * reports a circular dependency although nothing is running.
   */
  method StaleStackAsWritten(s: LuaState, file: string, message: string, fromRoot: string, later: Outcome)
    returns (r: Result<Table>)
    requires s.Valid() && s.fileStack == [] && !s.alreadyErrored && |file| > 0 && file[0] == '/'
    requires file !in s.modules && fromRoot == file
    modifies s
    ensures s.fileStack == [file] && !s.alreadyErrored
    ensures r == Failure("Circular dependency:" + Chain([file], file))
  {
    var _ := s.ExecuteFile(file, Failed(message));
    s.Restart(Nil);
    var logged;
    r, logged := s.Require("x", "", fromRoot, later);
  }

  /** With the corrected `ExecuteFile` the same sequence runs the script again. */
  method RestartRetriesCorrected(s: LuaState, file: string, message: string, fromRoot: string, later: Outcome)
    returns (r: Result<Table>)
    requires s.Valid() && s.fileStack == [] && !s.alreadyErrored && |file| > 0 && file[0] == '/'
    requires file !in s.modules && file != "lualib_bundle" && fromRoot == file && !later.Failed?
    modifies s
    ensures s.fileStack == [] && r.Success? && file in s.modules && r.value == s.modules[file]
  {
    var _ := s.ExecuteFileCorrected(file, Failed(message));
    s.Restart(Nil);
    var logged;
    r, logged := s.Require("x", "", fromRoot, later);
  }
}
