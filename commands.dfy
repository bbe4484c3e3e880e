/**
 * Console commands: the parameters a command declares, how an input line
 * is split into words, how missing arguments are filled from defaults or
 * reported, and how the manager picks the command whose name is the
 * longest prefix of the input. The option parser that maps words to
 * values is given by its result (a map from option names to text).
 */
module Commands {
  import opened Wrappers

  datatype ParamType = Number | String | Boolean | Positional

  datatype Param = Param(name: string, kind: ParamType, hasDef: bool, def: string)

  /** `BotCommandParameter(name, type)`: a required parameter. */
  function Required(name: string, kind: ParamType): Param
  {
    Param(name, kind, false, "")
  }

  /** `BotCommandParameter(name, std::string def)` as written: it is typed BOOLEAN. */
  function StringDefaultAsWritten(name: string, def: string): Param
  {
    Param(name, Boolean, true, def)
  }

  /** `BotCommandParameter(name, bool def)` as written: it is typed STRING. */
  function BoolDefaultAsWritten(name: string, def: bool): Param
  {
    Param(name, String, true, if def then "true" else "false")
  }

  /** The two constructors with the types their parameters say. */
  function StringDefault(name: string, def: string): Param
  {
    Param(name, String, true, def)
  }

  function BoolDefault(name: string, def: bool): Param
  {
    Param(name, Boolean, true, if def then "true" else "false")
  }

  /** `BotCommandParameter(name, double def)`; `defText` is what `std::to_string` printed. */
  function NumberDefault(name: string, defText: string): Param
  {
    Param(name, Number, true, defText)
  }

  /** `NAMED_ARGUMENTS`: the marker after which parameters are no longer positional. */
  const Marker: Param := Param("", Positional, false, "")

  /** As written, a string parameter with a default becomes a flag, and a flag with a default becomes a string. */
  lemma ConstructorTypesSwapped(name: string, s: string, b: bool)
    ensures StringDefaultAsWritten(name, s).kind == Boolean && BoolDefaultAsWritten(name, b).kind == String
    ensures StringDefault(name, s).kind == String && BoolDefault(name, b).kind == Boolean
    ensures StringDefaultAsWritten(name, s).def == StringDefault(name, s).def
  {
  }

  /** `get_bool`: anything but `"false"` and `"0"` is true. */
  function GetBool(value: string): bool
  {
    !(value == "false" || value == "0")
  }

  /** A flag's default text reads back as the flag. */
  lemma BoolDefaultRoundTrip(name: string, b: bool)
    ensures GetBool(BoolDefault(name, b).def) == b
    ensures GetBool(BoolDefaultAsWritten(name, b).def) == b
  {
  }

  // ---------------------------------------------------------------------------
  // Registering the options

  /** The default a parameter is registered with, as written: one exactly when it has none. */
  function RegisteredDefaultAsWritten(p: Param): Option<string>
  {
    if p.kind == Positional then None
    else if p.hasDef then None
    else Some(p.def)
  }

  /** The evidently intended registration: a parameter's own default. */
  function RegisteredDefault(p: Param): Option<string>
  {
    if p.kind != Positional && p.hasDef then Some(p.def) else None
  }

  /** As written every required option is registered with the empty default, and no option with its own. */
  lemma DefaultsInverted(p: Param)
    requires p.kind != Positional
    ensures RegisteredDefaultAsWritten(p).Some? <==> !p.hasDef
    ensures RegisteredDefault(p).Some? <==> p.hasDef
    ensures p == Required(p.name, p.kind) ==> RegisteredDefaultAsWritten(p) == Some("")
  {
  }

  /** The options `fire` registers: every parameter but the marker, in order. */
  function Options(params: seq<Param>): seq<(string, ParamType, Option<string>)>
  {
    if params == [] then []
    else
      (if params[0].kind == Positional then [] else [(params[0].name, params[0].kind, RegisteredDefaultAsWritten(params[0]))])
      + Options(params[1..])
  }

  /** The names of the parameters before the first marker. */
  function PositionalNames(params: seq<Param>): seq<string>
  {
    if params == [] || params[0].kind == Positional then []
    else [params[0].name] + PositionalNames(params[1..])
  }

  /** Without a marker every parameter is positional; a parameter after a marker never is. */
  lemma {:induction false} PositionalsBeforeMarker(params: seq<Param>, i: nat)
    requires i <= |params|
    ensures (forall j :: 0 <= j < |params| ==> params[j].kind != Positional) ==>
      PositionalNames(params) == seq(|params|, j requires 0 <= j < |params| => params[j].name)
    ensures i < |params| && params[i].kind == Positional ==> |PositionalNames(params)| <= i
  {
    if params != [] {
      if i > 0 {
        PositionalsBeforeMarker(params[1..], i - 1);
      } else {
        PositionalsBeforeMarker(params[1..], 0);
      }
      if params[0].kind != Positional && (forall j :: 0 <= j < |params| ==> params[j].kind != Positional) {
        assert forall j :: 0 <= j < |params[1..]| ==> params[1..][j].kind != Positional by {
          forall j | 0 <= j < |params[1..]| ensures params[1..][j].kind != Positional {
            assert params[1..][j] == params[j + 1];
          }
        }
      }
    }
  }

  /** The registration loop of `fire`. */
  method Register(params: seq<Param>) returns (options: seq<(string, ParamType, Option<string>)>, positionals: seq<string>)
    ensures options == Options(params) && positionals == PositionalNames(params)
  {
    options, positionals := [], [];
    var passedPositional := false;
    var i := 0;
    while i < |params|
      invariant 0 <= i <= |params|
      invariant options + Options(params[i..]) == Options(params)
      invariant !passedPositional ==> positionals + PositionalNames(params[i..]) == PositionalNames(params)
      invariant passedPositional ==> positionals == PositionalNames(params)
    {
      assert params[i..][1..] == params[i + 1..];
      var p := params[i];
      if p.kind == Positional {
        passedPositional := true;
      } else {
        options := options + [(p.name, p.kind, RegisteredDefaultAsWritten(p))];
        if !passedPositional {
          positionals := positionals + [p.name];
        }
      }
      i := i + 1;
    }
  }

  // ---------------------------------------------------------------------------
  // Splitting the input

  predicate IsSpace(c: char)
  {
    c == ' ' || c == '\t' || c == '\r' || c == '\n'
  }

  /** The scanner's state: inside quotes or not, the word so far, the words so far. */
  datatype Scan = Scan(inStr: bool, cur: string, words: seq<string>)

  /** `pushString`: a non-empty word is kept. */
  function Push(words: seq<string>, cur: string): seq<string>
  {
    if |cur| > 0 then words + [cur] else words
  }

  /** One character: a quote toggles and ends the word; blank space outside quotes ends it; anything else extends it. */
  function Step(st: Scan, c: char): Scan
  {
    if c == '"' then Scan(!st.inStr, "", Push(st.words, st.cur))
    else if !st.inStr && IsSpace(c) then Scan(st.inStr, "", Push(st.words, st.cur))
    else Scan(st.inStr, st.cur + [c], st.words)
  }

  function RunFrom(st: Scan, s: string): Scan
    decreases |s|
  {
    if s == [] then st else RunFrom(Step(st, s[0]), s[1..])
  }

  /** The words of an input line, or the error for an unterminated quote. */
  function Tokenize(input: string): Result<seq<string>>
  {
    var st := RunFrom(Scan(false, "", []), input);
    if st.inStr then Failure("Uneven quotes") else Success(Push(st.words, st.cur))
  }

  /** The splitting loop of `fire`. */
  method Split(input: string) returns (r: Result<seq<string>>)
    ensures r == Tokenize(input)
  {
    var words: seq<string> := [];
    var cur := "";
    var inStr := false;
    var i := 0;
    while i < |input|
      invariant 0 <= i <= |input|
      invariant RunFrom(Scan(inStr, cur, words), input[i..]) == RunFrom(Scan(false, "", []), input)
    {
      assert input[i..][1..] == input[i + 1..];
      if input[i] == '"' {
        inStr := !inStr;
        words, cur := Push(words, cur), "";
      } else if !inStr && IsSpace(input[i]) {
        words, cur := Push(words, cur), "";
      } else {
        cur := cur + [input[i]];
      }
      i := i + 1;
    }
    if inStr {
      return Failure("Uneven quotes");
    }
    r := Success(Push(words, cur));
  }

  /** No word is empty and none holds a quote. */
  predicate Clean(words: seq<string>)
  {
    forall k :: 0 <= k < |words| ==> |words[k]| > 0 && '"' !in words[k]
  }

  lemma {:induction false} RunClean(st: Scan, s: string)
    requires Clean(st.words) && '"' !in st.cur
    ensures var e := RunFrom(st, s); Clean(e.words) && '"' !in e.cur
    decreases |s|
  {
    if s != [] {
      var next := Step(st, s[0]);
      assert Clean(next.words) && '"' !in next.cur;
      RunClean(next, s[1..]);
    }
  }

  /** Every word is non-empty and quote-free. */
  lemma WordsClean(input: string)
    ensures Tokenize(input).Success? ==> Clean(Tokenize(input).value)
  {
    RunClean(Scan(false, "", []), input);
  }

  /** A plain word: no blank space and no quote. */
  predicate Plain(w: string)
  {
    forall k :: 0 <= k < |w| ==> !IsSpace(w[k]) && w[k] != '"'
  }

  lemma {:induction false} RunPlain(inStr: bool, cur: string, words: seq<string>, w: string)
    requires Plain(w)
    ensures RunFrom(Scan(inStr, cur, words), w) == Scan(inStr, cur + w, words)
    decreases |w|
  {
    if w != [] {
      assert Plain(w[1..]) by {
        forall k | 0 <= k < |w[1..]| ensures !IsSpace(w[1..][k]) && w[1..][k] != '"' {
          assert w[1..][k] == w[k + 1];
        }
      }
      RunPlain(inStr, cur + [w[0]], words, w[1..]);
      assert cur + [w[0]] + w[1..] == cur + w;
    }
  }

  lemma {:induction false} RunAppend(st: Scan, s: string, t: string)
    ensures RunFrom(st, s + t) == RunFrom(RunFrom(st, s), t)
    decreases |s|
  {
    if s != [] {
      var u := s + t;
      assert u != [] && u[0] == s[0] && u[1..] == s[1..] + t;
      assert RunFrom(st, u) == RunFrom(Step(st, s[0]), s[1..] + t);
      RunAppend(Step(st, s[0]), s[1..], t);
    } else {
      assert s + t == t;
    }
  }

  /** Words joined by single spaces. */
  function Unwords(words: seq<string>): string
  {
    if |words| <= 1 then (if words == [] then "" else words[0])
    else words[0] + " " + Unwords(words[1..])
  }

  lemma {:induction false} ScanWords(acc: seq<string>, words: seq<string>)
    requires |words| > 0 && forall k :: 0 <= k < |words| ==> |words[k]| > 0 && Plain(words[k])
    ensures RunFrom(Scan(false, "", acc), Unwords(words)) == Scan(false, words[|words| - 1], acc + words[..|words| - 1])
    decreases |words|
  {
    RunPlain(false, "", acc, words[0]);
    assert "" + words[0] == words[0];
    if |words| > 1 {
      var rest := Unwords(words[1..]);
      RunAppend(Scan(false, "", acc), words[0], " " + rest);
      RunAppend(Scan(false, words[0], acc), " ", rest);
      assert RunFrom(Scan(false, words[0], acc), " ") == Scan(false, "", acc + [words[0]]);
      assert (words[0] + " ") + rest == words[0] + (" " + rest);
      ScanWords(acc + [words[0]], words[1..]);
      assert acc + [words[0]] + words[1..][..|words[1..]| - 1] == acc + words[..|words| - 1];
    } else {
      assert words[..0] == [] && acc + [] == acc;
    }
  }

  /** Words of plain text joined by spaces split back into the same words. */
  lemma WordsRoundTrip(words: seq<string>)
    requires forall k :: 0 <= k < |words| ==> |words[k]| > 0 && Plain(words[k])
    ensures Tokenize(Unwords(words)) == Success(words)
  {
    if words != [] {
      ScanWords([], words);
      assert [] + words[..|words| - 1] + [words[|words| - 1]] == words;
    }
  }

  lemma {:induction false} RunQuoted(cur: string, words: seq<string>, q: string)
    requires '"' !in q
    ensures RunFrom(Scan(true, cur, words), q) == Scan(true, cur + q, words)
    decreases |q|
  {
    if q != [] {
      RunQuoted(cur + [q[0]], words, q[1..]);
      assert cur + [q[0]] + q[1..] == cur + q;
    }
  }

  /** A quoted text is one word, blank space and all. */
  lemma QuotedIsOneWord(q: string)
    requires |q| > 0 && '"' !in q
    ensures Tokenize("\"" + q + "\"") == Success([q])
  {
    var st0 := Scan(false, "", []);
    var open := Scan(true, "", []);
    RunAppend(st0, "\"", q + "\"");
    assert "\"" + q + "\"" == "\"" + (q + "\"");
    assert RunFrom(st0, "\"") == RunFrom(open, []) == open;
    RunAppend(open, q, "\"");
    RunQuoted("", [], q);
    assert "" + q == q;
    var closed := Scan(true, q, []);
    assert RunFrom(closed, "\"") == RunFrom(Step(closed, '"'), []) == Scan(false, "", [q]);
  }

  /** An odd number of quotes is reported. */
  lemma UnterminatedQuote(w: string)
    requires Plain(w)
    ensures Tokenize("\"" + w) == Failure("Uneven quotes")
  {
    RunAppend(Scan(false, "", []), "\"", w);
    assert RunFrom(Scan(false, "", []), "\"") == Scan(true, "", []);
    RunPlain(true, "", [], w);
  }

  // ---------------------------------------------------------------------------
  // Filling in defaults

  /** Each parameter the parser did not supply takes its default; the first one without a default is an error. */
  function Fill(params: seq<Param>, args: map<string, string>): Result<map<string, string>>
  {
    if params == [] then Success(args)
    else
      var p := params[0];
      if p.name in args then Fill(params[1..], args)
      else if p.hasDef then Fill(params[1..], args[p.name := p.def])
      else Failure("Missing required argument " + p.name)
  }

  /**
   * What `Fill` promises on success: every parameter has a value, what the
   * parser supplied is kept and every other value is some parameter's
   * default.
   */
  lemma {:induction false} FillSuccess(params: seq<Param>, args: map<string, string>)
    requires Fill(params, args).Success?
    ensures var m := Fill(params, args).value;
      (forall k :: 0 <= k < |params| ==> params[k].name in m) &&
      (forall n :: n in args ==> n in m && m[n] == args[n]) &&
      (forall n :: n in m && n !in args ==> exists k :: 0 <= k < |params| && params[k].name == n && params[k].hasDef && m[n] == params[k].def)
  {
    if params != [] {
      var p := params[0];
      var next := if p.name in args then args else args[p.name := p.def];
      FillSuccess(params[1..], next);
      var m := Fill(params, args).value;
      forall k | 0 <= k < |params| ensures params[k].name in m {
        if k > 0 { assert params[1..][k - 1] == params[k]; }
      }
      forall n | n in m && n !in args
        ensures exists k :: 0 <= k < |params| && params[k].name == n && params[k].hasDef && m[n] == params[k].def
      {
        if n in next {
          assert params[0].name == n && params[0].hasDef && m[n] == params[0].def;
        } else {
          var k :| 0 <= k < |params[1..]| && params[1..][k].name == n && params[1..][k].hasDef && m[n] == params[1..][k].def;
          assert params[k + 1] == params[1..][k];
        }
      }
    }
  }

  /** On failure a parameter without a default was not supplied, and the message names it. */
  lemma {:induction false} FillFailure(params: seq<Param>, args: map<string, string>)
    requires Fill(params, args).Failure?
    ensures exists k :: (0 <= k < |params| && params[k].name !in args && !params[k].hasDef &&
      Fill(params, args).error == "Missing required argument " + params[k].name)
  {
    var p := params[0];
    if p.name in args || p.hasDef {
      var next := if p.name in args then args else args[p.name := p.def];
      FillFailure(params[1..], next);
      var k :| 0 <= k < |params[1..]| && params[1..][k].name !in next && !params[1..][k].hasDef &&
        Fill(params[1..], next).error == "Missing required argument " + params[1..][k].name;
      assert params[k + 1] == params[1..][k];
    }
  }

  /** When every parameter is supplied or has a default, `Fill` succeeds. */
  lemma {:induction false} FillTotal(params: seq<Param>, args: map<string, string>)
    requires forall k :: 0 <= k < |params| ==> params[k].name in args || params[k].hasDef
    ensures Fill(params, args).Success?
  {
    if params != [] {
      var p := params[0];
      var next := if p.name in args then args else args[p.name := p.def];
      forall k | 0 <= k < |params[1..]| ensures params[1..][k].name in next || params[1..][k].hasDef {
        assert params[1..][k] == params[k + 1];
      }
      FillTotal(params[1..], next);
    }
  }

  /** A command holding the marker always fails: the marker is named "" and has no default. */
  lemma MarkerIsRequired(params: seq<Param>, args: map<string, string>)
    requires Marker in params && "" !in args
    requires forall k :: 0 <= k < |params| && params[k].name == "" ==> !params[k].hasDef
    ensures Fill(params, args).Failure?
  {
    var k :| 0 <= k < |params| && params[k] == Marker;
    if Fill(params, args).Success? {
      FillSuccess(params, args);
    }
    assert params[k].name == "";
  }

  /** The default-filling loop of `fire`. */
  method FillDefaults(params: seq<Param>, parsed: map<string, string>) returns (r: Result<map<string, string>>)
    ensures r == Fill(params, parsed)
  {
    var args := parsed;
    var i := 0;
    while i < |params|
      invariant 0 <= i <= |params|
      invariant Fill(params[i..], args) == Fill(params, parsed)
    {
      assert params[i..][0] == params[i] && params[i..][1..] == params[i + 1..];
      var p := params[i];
      if p.name !in args {
        if p.hasDef {
          args := args[p.name := p.def];
        } else {
          return Failure("Missing required argument " + p.name);
        }
      }
      i := i + 1;
    }
    r := Success(args);
  }

  // ---------------------------------------------------------------------------
  // Commands and the manager

  class Command {
    const name: string
    var description: string
    var params: seq<Param>

    /** `BotCommand(name)`. */
    constructor (name: string)
      ensures this.name == name && description == "" && params == []
    {
      this.name := name;
      description, params := "", [];
    }

    /** `AddStringParam`, with or without a default; with one it is typed as written. */
    method AddStringParam(pname: string, def: Option<string>)
      modifies this`params
      ensures params == old(params) + [if def.Some? then StringDefaultAsWritten(pname, def.value) else Required(pname, String)]
    {
      params := params + [if def.Some? then StringDefaultAsWritten(pname, def.value) else Required(pname, String)];
    }

    /** `AddNumberParam`; the default is given as the text `std::to_string` prints. */
    method AddNumberParam(pname: string, defText: Option<string>)
      modifies this`params
      ensures params == old(params) + [if defText.Some? then NumberDefault(pname, defText.value) else Required(pname, Number)]
    {
      params := params + [if defText.Some? then NumberDefault(pname, defText.value) else Required(pname, Number)];
    }

    /** `AddBoolParam`, with or without a default; with one it is typed as written. */
    method AddBoolParam(pname: string, def: Option<bool>)
      modifies this`params
      ensures params == old(params) + [if def.Some? then BoolDefaultAsWritten(pname, def.value) else Required(pname, Boolean)]
    {
      params := params + [if def.Some? then BoolDefaultAsWritten(pname, def.value) else Required(pname, Boolean)];
    }

    method SetDescription(d: string)
      modifies this`description
      ensures description == d
    {
      description := d;
    }

    /**
     * `fire`, up to the callback: split the input, then fill in what the
     * parser (given by its result) did not supply. The arguments handed to
     * the callback are the result.
     */
    method Fire(input: string, parsed: map<string, string>) returns (r: Result<map<string, string>>)
      ensures Tokenize(input).Failure? ==> r == Failure("Uneven quotes")
      ensures Tokenize(input).Success? ==> r == Fill(params, parsed)
    {
      var _, _ := Register(params);
      var words := Split(input);
      if words.Failure? {
        return Failure(words.error);
      }
      r := FillDefaults(params, parsed);
    }
  }

  /** The name picked for an input: a prefix of it, and no shorter than any other such name. */
  predicate IsLongestPrefix(input: string, names: set<string>, n: string)
  {
    n in names && n <= input && forall m :: m in names && m <= input ==> |m| <= |n|
  }

  /** Two names that are both the longest prefix are the same name. */
  lemma LongestPrefixUnique(input: string, names: set<string>, a: string, b: string)
    requires IsLongestPrefix(input, names, a) && IsLongestPrefix(input, names, b)
    ensures a == b
  {
    assert |a| == |b|;
    assert a == input[..|a|] && b == input[..|b|];
  }

  /** The command set used at start-up: `start` with its four parameters. */
  function StartParams(): seq<Param>
  {
    [Required("username", String), Required("password", String),
     StringDefaultAsWritten("events", "tswow:root_events"), StringDefaultAsWritten("authserver", "127.0.0.1")]
  }

  /** `start` needs a user name and a password; the event set and the auth server fall back to their defaults. */
  lemma StartArguments(parsed: map<string, string>)
    ensures Fill(StartParams(), parsed).Success? <==> "username" in parsed && "password" in parsed
    ensures Fill(StartParams(), parsed).Success? && "authserver" !in parsed ==>
      var m := Fill(StartParams(), parsed).value; "authserver" in m && m["authserver"] == "127.0.0.1"
    ensures Fill(StartParams(), parsed).Success? && "events" !in parsed ==>
      var m := Fill(StartParams(), parsed).value; "events" in m && m["events"] == "tswow:root_events"
  {
    var ps := StartParams();
    if "username" in parsed && "password" in parsed {
      FillTotal(ps, parsed);
    }
    assert ps[0].name == "username" && ps[1].name == "password" && ps[2].name == "events" && ps[3].name == "authserver";
    assert forall k :: 0 <= k < |ps| && (ps[k].name == "username" || ps[k].name == "password") ==> !ps[k].hasDef;
    if Fill(ps, parsed).Success? {
      FillSuccess(ps, parsed);
      var m := Fill(ps, parsed).value;
      assert ps[0].name in m && ps[1].name in m;
      if "authserver" !in parsed {
        assert ps[3].name in m;
        var k :| 0 <= k < |ps| && ps[k].name == "authserver" && ps[k].hasDef && m["authserver"] == ps[k].def;
        assert k == 3;
      }
      if "events" !in parsed {
        assert ps[2].name in m;
        var k :| 0 <= k < |ps| && ps[k].name == "events" && ps[k].hasDef && m["events"] == ps[k].def;
        assert k == 2;
      }
    }
  }

  class CommandMgr {
    var commands: map<string, Command>

    constructor ()
      ensures commands == map[]
    {
      commands := map[];
    }

    /** `CreateCommand`: a new, empty command under the name, replacing any existing one. */
    method CreateCommand(name: string) returns (c: Command)
      modifies this`commands
      ensures fresh(c) && c.name == name && c.params == [] && commands == old(commands)[name := c]
    {
      c := new Command(name);
      commands := commands[name := c];
    }

    /** The search of `Fire`: the longest command name the input starts with. */
    method Select(input: string) returns (chosen: Option<string>)
      ensures chosen.None? <==> forall m :: m in commands ==> !(m <= input)
      ensures chosen.Some? ==> IsLongestPrefix(input, commands.Keys, chosen.value)
    {
      chosen := None;
      var remaining := commands.Keys;
      while remaining != {}
        invariant remaining <= commands.Keys
        invariant chosen.None? ==> forall m :: m in commands.Keys - remaining ==> !(m <= input)
        invariant chosen.Some? ==> IsLongestPrefix(input, commands.Keys - remaining, chosen.value)
        decreases |remaining|
      {
        var n :| n in remaining;
        assert commands.Keys - (remaining - {n}) == (commands.Keys - remaining) + {n};
        if n <= input && (chosen.None? || |n| > |chosen.value|) {
          chosen := Some(n);
        }
        remaining := remaining - {n};
      }
      assert commands.Keys - remaining == commands.Keys;
    }

    /** `Fire`: the chosen command fires; an input no command starts is ignored. */
    method Fire(input: string, parsed: map<string, string>) returns (r: Option<Result<map<string, string>>>)
      ensures r.None? <==> forall m :: m in commands ==> !(m <= input)
      ensures r.Some? ==> exists n :: (IsLongestPrefix(input, commands.Keys, n) &&
        r.value == (if Tokenize(input).Failure? then Failure("Uneven quotes") else Fill(commands[n].params, parsed)))
    {
      var chosen := Select(input);
      if chosen.None? {
        return None;
      }
      var res := commands[chosen.value].Fire(input, parsed);
      r := Some(res);
    }

    /** `Reload` without the Lua commands: everything dropped, then `start` registered again. */
    method Reload() returns (start: Command)
      modifies this`commands
      ensures fresh(start) && commands == map["start" := start]
      ensures start.params == StartParams() && start.description == "Starts a bot and logs in to the game"
    {
      commands := map[];
      start := CreateCommand("start");
      start.SetDescription("Starts a bot and logs in to the game");
      start.AddStringParam("username", None);
      start.AddStringParam("password", None);
      start.AddStringParam("events", Some("tswow:root_events"));
      start.AddStringParam("authserver", Some("127.0.0.1"));
    }
  }
}
