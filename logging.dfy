/**
 * Logging: the per-category threshold that decides whether a message is
 * printed, and the `%`-directive scanner that formats a message logged from
 * Lua. The configuration is a map from keys to integers; each argument is
 * given as the text its conversion prints.
 */
module Logging {
  import opened Wrappers

  datatype LogLevel = Trace | Debug | Info | Warn | Error

  /** `LogLevel`'s `uint8_t` values, `LOG_TRACE = 1` up to `LOG_ERROR = 5`. */
  function LevelValue(l: LogLevel): (v: nat)
    ensures 1 <= v <= 5
  {
    match l
    case Trace => 1
    case Debug => 2
    case Info => 3
    case Warn => 4
    case Error => 5
  }

  /** `GetIntDefault(key, def)`. */
  function ConfigInt(config: map<string, int>, key: string, def: int): int
  {
    if key in config then config[key] else def
  }

  /** The category's own setting, or the `Logger.*` setting (default 1) when that is negative or absent. */
  function Threshold(config: map<string, int>, category: string): int
  {
    var own := ConfigInt(config, "Logger." + category, -1);
    if own < 0 then ConfigInt(config, "Logger.*", 1) else own
  }

  /** `should_log`: a positive threshold at or below the message's level. */
  function ShouldLog(config: map<string, int>, level: LogLevel, category: string): (b: bool)
    ensures b <==> 0 < Threshold(config, category) <= LevelValue(level)
  {
    var t := Threshold(config, category);
    t > 0 && t <= LevelValue(level)
  }

  /** What is printed at one level is printed at every higher level. */
  lemma ShouldLogMonotone(config: map<string, int>, category: string, a: LogLevel, b: LogLevel)
    requires LevelValue(a) <= LevelValue(b) && ShouldLog(config, a, category)
    ensures ShouldLog(config, b, category)
  {
  }

  /** With nothing configured every message is printed; a category set to 0 prints nothing. */
  lemma ThresholdDefaults(config: map<string, int>, category: string, level: LogLevel)
    ensures config == map[] ==> ShouldLog(config, level, category)
    ensures ("Logger." + category) in config && config["Logger." + category] == 0 ==> !ShouldLog(config, level, category)
  {
  }

  /** `log_header`. */
  function Header(level: LogLevel, category: string): string
  {
    var tag := match level
      case Trace => "[TRACE]"
      case Debug => "[DEBUG]"
      case Info => "[INFO]"
      case Warn => "[WARN]"
      case Error => "[ERROR]";
    tag + "[" + category + "]: "
  }

  // ---------------------------------------------------------------------------
  // The directive scanner

  /** The conversions that take an argument: `%c`, `%s`, `%u`, `%i`, `%d`. */
  predicate IsConversion(c: char)
  {
    c == 'c' || c == 's' || c == 'u' || c == 'i' || c == 'd'
  }

  /** Position i follows a `%`: the scanner is in command mode there. */
  predicate AfterPercent(s: string, i: nat)
    requires i < |s|
  {
    i > 0 && s[i - 1] == '%'
  }

  /** Position i takes an argument. */
  predicate TakesArg(s: string, i: nat)
    requires i < |s|
  {
    AfterPercent(s, i) && IsConversion(s[i])
  }

  /** The number of arguments a message takes. */
  function Directives(s: string): nat
  {
    if s == [] then 0
    else Directives(s[..|s| - 1]) + (if TakesArg(s, |s| - 1) then 1 else 0)
  }

  /**
   * The message as printed, position by position: a `%` prints nothing; a
   * character after a `%` prints the next argument when it is a
   * conversion and nothing otherwise; any other character prints itself.
   */
  function Rendered(s: string, args: seq<string>): string
    requires Directives(s) <= |args|
  {
    if s == [] then []
    else
      var i := |s| - 1;
      var prefix := s[..i];
      var piece :=
        if s[i] == '%' then []
        else if AfterPercent(s, i) then (if IsConversion(s[i]) then args[Directives(prefix)] else [])
        else [s[i]];
      Rendered(prefix, args) + piece
  }

  lemma PrefixDirectives(s: string, i: nat)
    requires i < |s|
    ensures Directives(s[..i + 1]) == Directives(s[..i]) + (if TakesArg(s, i) then 1 else 0)
  {
    assert s[..i + 1][..i] == s[..i];
  }

  lemma {:induction false} DirectivesGrow(s: string, i: nat)
    requires i <= |s|
    ensures Directives(s[..i]) <= Directives(s)
    decreases |s| - i
  {
    if i < |s| {
      PrefixDirectives(s, i);
      DirectivesGrow(s, i + 1);
    } else {
      assert s[..i] == s;
    }
  }

  /**
   * The body of `LBotLog` after the header: one pass over the message that
   * tracks whether the previous character was `%` and how many arguments
   * have been used. Running out of arguments is an error.
   */
  method FormatMessage(message: string, args: seq<string>) returns (r: Result<string>)
    ensures Directives(message) <= |args| ==> r == Success(Rendered(message, args))
    ensures Directives(message) > |args| ==> r.Failure?
  {
    var out := "";
    var isCmd := false;
    var argc := 0;
    var i := 0;
    while i < |message|
      invariant 0 <= i <= |message|
      invariant argc == Directives(message[..i]) && argc <= |args|
      invariant isCmd <==> i > 0 && message[i - 1] == '%'
      invariant out == Rendered(message[..i], args)
    {
      PrefixDirectives(message, i);
      var prefix := message[..i + 1];
      assert prefix[..i] == message[..i] && prefix[i] == message[i];
      if message[i] == '%' {
        isCmd := true;
      } else if isCmd {
        if IsConversion(message[i]) {
          if argc >= |args| {
            DirectivesGrow(message, i + 1);
            return Failure("missing argument");
          }
          out := out + args[argc];
          argc := argc + 1;
        }
        isCmd := false;
      } else {
        out := out + [message[i]];
      }
      i := i + 1;
    }
    assert message[..i] == message;
    r := Success(out);
  }

  /** A message without `%` takes no arguments and prints as it is. */
  lemma {:induction false} PlainMessage(s: string, args: seq<string>)
    requires '%' !in s
    ensures Directives(s) == 0 && Rendered(s, args) == s
  {
    if s != [] {
      var i := |s| - 1;
      assert s[..i] + [s[i]] == s;
      assert '%' !in s[..i];
      PlainMessage(s[..i], args);
    }
  }

  /** `%%` prints nothing and leaves the scanner in command mode; an unknown directive prints nothing. */
  lemma DirectiveExamples()
    ensures Directives("%%s") == 1 && Rendered("%%s", ["x"]) == "x"
    ensures Directives("%x!") == 0 && Rendered("%x!", []) == "!"
  {
    assert "%%s"[..2] == "%%" && "%%"[..1] == "%" && "%"[..0] == [];
    assert "%x!"[..2] == "%x" && "%x"[..1] == "%" && "%"[..0] == [];
  }

  /** `LBotLog`: nothing when the threshold says so, otherwise the header, the message and a newline. */
  method LBotLog(config: map<string, int>, level: LogLevel, category: string, message: string, args: seq<string>)
    returns (printed: Result<string>)
    ensures !ShouldLog(config, level, category) ==> printed == Success("")
    ensures ShouldLog(config, level, category) && Directives(message) <= |args| ==>
      printed == Success(Header(level, category) + Rendered(message, args) + "\n")
    ensures ShouldLog(config, level, category) && Directives(message) > |args| ==> printed.Failure?
  {
    if !ShouldLog(config, level, category) {
      return Success("");
    }
    var body := FormatMessage(message, args);
    if body.Failure? {
      return Failure(body.error);
    }
    printed := Success(Header(level, category) + body.value + "\n");
  }
}
