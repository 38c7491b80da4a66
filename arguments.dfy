/**
 * The command-line loop of `DutyShifts.run` (main.rb:31-47): each argument
 * either sets a flag in the configuration, names the key that the next plain
 * argument fills, asks for help, or is that value.
 */
module Arguments {
  import opened Optional

  /**
   * Configuration keys, symbols in the source; `Named` stands for every key
   * the argument loop never writes. A `Named` key spelling one of the four
   * loop keys would be a second copy of a symbol, which a Ruby hash cannot
   * hold: `Runs.WellTyped` excludes it.
   */
  datatype Key = SheetName | StartDate | ClearEvents | Noop | Named(name: string)

  /** A `Named` key spelling `sheet_name`, `start_date`, `clear_events` or `noop`. */
  predicate SpellsLoopKey(k: Key)
  {
    k.Named? && (k.name == "sheet_name" || k.name == "start_date" || k.name == "clear_events" || k.name == "noop")
  }

  /** Configuration values: what the YAML file or the command line can put under a key. */
  datatype Value = Text(text: string) | Flag(flag: bool) | Integer(number: int) | Items(items: seq<Value>) | Nil

  type Config = map<Key, Value>

  /** The loop's two variables: the configuration hash and `next_arg`. */
  datatype ArgState = ArgState(config: Config, pending: Option<Key>)

  /** Where the loop stands: still running, returned to print the help, or raised `ArgumentError`. */
  datatype ArgRun = Running(state: ArgState) | HelpRequested | Rejected(message: string)

  datatype ParseOutcome = Parsed(config: Config) | Help | ArgumentError(message: string)

  const NoArgumentsMessage := "This command takes no arguments"

  /** The arguments the `case` statement recognises. */
  predicate IsOption(arg: string)
  {
    arg == "--sheet" || arg == "--date" || arg == "--clear" || arg == "--dry-run" || arg == "--help" || arg == "-h"
  }

  /** One pass of the loop body for `arg`. */
  function Step(s: ArgState, arg: string): ArgRun
  {
    if arg == "--sheet" then Running(s.(pending := Some(SheetName)))
    else if arg == "--date" then Running(s.(pending := Some(StartDate)))
    else if arg == "--clear" then Running(s.(config := s.config[ClearEvents := Flag(true)]))
    else if arg == "--dry-run" then Running(s.(config := s.config[Noop := Flag(true)]))
    else if arg == "--help" || arg == "-h" then HelpRequested
    else
      match s.pending
      case Some(k) => Running(ArgState(s.config[k := Text(arg)], None))
      case None => Rejected(NoArgumentsMessage)
  }

  /** The loop over `args` from state `s`, stopping at help or at an error. */
  function RunArgs(args: seq<string>, s: ArgState): ArgRun
  {
    if args == [] then Running(s)
    else
      match Step(s, args[0])
      case Running(s') => RunArgs(args[1..], s')
      case stop => stop
  }

  /** The whole argument loop, from an empty `next_arg`; a key still pending at the end is dropped. */
  function ParseArguments(args: seq<string>, config: Config): ParseOutcome
  {
    match RunArgs(args, ArgState(config, None))
    case Running(s) => Parsed(s.config)
    case HelpRequested => Help
    case Rejected(m) => ArgumentError(m)
  }

  /** The loop as the source writes it: `ARGV.each` updating `config` and `next_arg` in place. */
  method ParseArgumentsLoop(args: seq<string>, config: Config) returns (outcome: ParseOutcome)
    ensures outcome == ParseArguments(args, config)
  {
    var cfg := config;
    var nextArg: Option<Key> := None;
    for i := 0 to |args|
      invariant RunArgs(args, ArgState(config, None)) == RunArgs(args[i..], ArgState(cfg, nextArg))
    {
      assert args[i..] == [args[i]] + args[i + 1..];
      var arg := args[i];
      if arg == "--sheet" {
        nextArg := Some(SheetName);
      } else if arg == "--date" {
        nextArg := Some(StartDate);
      } else if arg == "--clear" {
        cfg := cfg[ClearEvents := Flag(true)];
      } else if arg == "--dry-run" {
        cfg := cfg[Noop := Flag(true)];
      } else if arg == "--help" || arg == "-h" {
        return Help;
      } else if nextArg.Some? {
        cfg := cfg[nextArg.value := Text(arg)];
        nextArg := None;
      } else {
        return ArgumentError(NoArgumentsMessage);
      }
    }
    assert args[|args|..] == [];
    outcome := Parsed(cfg);
  }

  /** Running `a + b` is running `a`, then `b` from where `a` left off. */
  lemma {:induction false} RunArgsConcat(a: seq<string>, b: seq<string>, s: ArgState)
    ensures RunArgs(a + b, s) == match RunArgs(a, s) case Running(s') => RunArgs(b, s') case stop => stop
  {
    if a == [] {
      assert a + b == b;
    } else {
      assert (a + b)[0] == a[0];
      assert (a + b)[1..] == a[1..] + b;
      match Step(s, a[0])
      case Running(s') => RunArgsConcat(a[1..], b, s');
      case _ =>
    }
  }

  /** `--help` or `-h` returns at once: nothing after it is looked at, not even an argument that would raise. */
  lemma HelpStops(before: seq<string>, help: string, after: seq<string>, config: Config)
    requires help == "--help" || help == "-h"
    requires RunArgs(before, ArgState(config, None)).Running?
    ensures ParseArguments(before + [help] + after, config) == Help
  {
    var s := RunArgs(before, ArgState(config, None)).state;
    RunArgsConcat(before, [help] + after, ArgState(config, None));
    assert before + [help] + after == before + ([help] + after);
    assert ([help] + after)[0] == help;
  }

  /** A plain argument with no key pending raises `ArgumentError`, whatever follows it. */
  lemma StrayArgumentRejected(before: seq<string>, arg: string, after: seq<string>, config: Config)
    requires !IsOption(arg)
    requires RunArgs(before, ArgState(config, None)).Running?
    requires RunArgs(before, ArgState(config, None)).state.pending.None?
    ensures ParseArguments(before + [arg] + after, config) == ArgumentError(NoArgumentsMessage)
  {
    RunArgsConcat(before, [arg] + after, ArgState(config, None));
    assert before + [arg] + after == before + ([arg] + after);
    assert ([arg] + after)[0] == arg;
  }

  /** A `--sheet` or `--date` at the very end sets nothing. */
  lemma TrailingKeySetsNothing(args: seq<string>, key: string, config: Config)
    requires key == "--sheet" || key == "--date"
    ensures ParseArguments(args + [key], config) == ParseArguments(args, config)
  {
    RunArgsConcat(args, [key], ArgState(config, None));
  }

  /** `--clear` and `--dry-run` set `clear_events` and `noop` to true, on top of what came before. */
  lemma FlagSetsKey(args: seq<string>, flag: string, config: Config)
    requires flag == "--clear" || flag == "--dry-run"
    ensures var k := if flag == "--clear" then ClearEvents else Noop;
      ParseArguments(args + [flag], config) ==
        match ParseArguments(args, config) case Parsed(c) => Parsed(c[k := Flag(true)]) case stop => stop
  {
    RunArgsConcat(args, [flag], ArgState(config, None));
  }

  /** `--clear` and `--dry-run` never look at `next_arg`: a pending key stays pending across them. */
  lemma {:induction false} FlagsKeepPending(flags: seq<string>, cfg: Config, p: Option<Key>, q: Option<Key>)
    requires forall i :: 0 <= i < |flags| ==> flags[i] == "--clear" || flags[i] == "--dry-run"
    ensures RunArgs(flags, ArgState(cfg, p)).Running?
    ensures RunArgs(flags, ArgState(cfg, p)).state.pending == p
    ensures RunArgs(flags, ArgState(cfg, q)).Running? &&
            RunArgs(flags, ArgState(cfg, p)).state.config == RunArgs(flags, ArgState(cfg, q)).state.config
  {
    if flags != [] {
      var k := if flags[0] == "--clear" then ClearEvents else Noop;
      assert Step(ArgState(cfg, p), flags[0]) == Running(ArgState(cfg[k := Flag(true)], p));
      assert Step(ArgState(cfg, q), flags[0]) == Running(ArgState(cfg[k := Flag(true)], q));
      FlagsKeepPending(flags[1..], cfg[k := Flag(true)], p, q);
    }
  }

  /**
   * `--sheet` or `--date` at the end, then any run of `--clear` and
   * `--dry-run`, then a plain argument `v`: `v` becomes the value of
   * `sheet_name` or `start_date`, whatever key was pending before, and the
   * flags in between take effect as if the key had come after them.
   */
  lemma KeyThenValue(args: seq<string>, key: string, flags: seq<string>, v: string, config: Config)
    requires key == "--sheet" || key == "--date"
    requires forall i :: 0 <= i < |flags| ==> flags[i] == "--clear" || flags[i] == "--dry-run"
    requires !IsOption(v)
    ensures var k := if key == "--sheet" then SheetName else StartDate;
      ParseArguments(args + [key] + flags + [v], config) ==
        match ParseArguments(args + flags, config) case Parsed(c) => Parsed(c[k := Text(v)]) case stop => stop
  {
    var k := if key == "--sheet" then SheetName else StartDate;
    var init := ArgState(config, None);
    var tail := [key] + flags + [v];
    assert args + [key] + flags + [v] == args + tail;
    RunArgsConcat(args, tail, init);
    RunArgsConcat(args, flags, init);
    match RunArgs(args, init)
    case Running(s) =>
      assert tail[0] == key && tail[1..] == flags + [v];
      var waiting := s.(pending := Some(k));
      assert RunArgs(tail, s) == RunArgs(flags + [v], waiting);
      RunArgsConcat(flags, [v], waiting);
      FlagsKeepPending(flags, s.config, Some(k), s.pending);
      var after := RunArgs(flags, waiting).state;
      assert RunArgs([v], after) == RunArgs([], ArgState(after.config[k := Text(v)], None));
    case _ =>
  }

  /** The keys the loop can write; the only keys `next_arg` can hold. */
  predicate ArgumentKey(k: Key)
  {
    k == SheetName || k == StartDate || k == ClearEvents || k == Noop
  }

  /** What the loop keeps: keys it cannot write are untouched, the flags it set stay set. */
  ghost predicate Keeps(before: Config, s: ArgState)
  {
    && (s.pending.Some? ==> s.pending.value == SheetName || s.pending.value == StartDate)
    && (forall k :: !ArgumentKey(k) ==> (k in s.config <==> k in before) && (k in before ==> s.config[k] == before[k]))
    && (ClearEvents in before && before[ClearEvents] == Flag(true) ==> ClearEvents in s.config && s.config[ClearEvents] == Flag(true))
    && (Noop in before && before[Noop] == Flag(true) ==> Noop in s.config && s.config[Noop] == Flag(true))
  }

  lemma {:induction false} RunArgsKeeps(args: seq<string>, s: ArgState)
    requires s.pending.Some? ==> s.pending.value == SheetName || s.pending.value == StartDate
    ensures RunArgs(args, s).Running? ==> Keeps(s.config, RunArgs(args, s).state)
  {
    if args != [] {
      match Step(s, args[0])
      case Running(s') =>
        RunArgsKeeps(args[1..], s');
      case _ =>
    }
  }

  /**
   * Parsing changes no key other than `sheet_name`, `start_date`,
   * `clear_events` and `noop`, and a `--clear` or `--dry-run` anywhere in a
   * successful parse leaves its flag set to true.
   */
  lemma ParseFrame(args: seq<string>, config: Config)
    requires ParseArguments(args, config).Parsed?
    ensures var c := ParseArguments(args, config).config;
      && (forall k :: !ArgumentKey(k) ==> (k in c <==> k in config) && (k in config ==> c[k] == config[k]))
      && ("--clear" in args ==> ClearEvents in c && c[ClearEvents] == Flag(true))
      && ("--dry-run" in args ==> Noop in c && c[Noop] == Flag(true))
  {
    RunArgsKeeps(args, ArgState(config, None));
    FlagSticks(args, "--clear", config);
    FlagSticks(args, "--dry-run", config);
  }

  lemma FlagSticks(args: seq<string>, flag: string, config: Config)
    requires flag == "--clear" || flag == "--dry-run"
    requires ParseArguments(args, config).Parsed?
    ensures var k := if flag == "--clear" then ClearEvents else Noop;
      flag in args ==> k in ParseArguments(args, config).config && ParseArguments(args, config).config[k] == Flag(true)
  {
    if flag in args {
      var k := if flag == "--clear" then ClearEvents else Noop;
      var i :| 0 <= i < |args| && args[i] == flag;
      var init := ArgState(config, None);
      assert args == args[..i + 1] + args[i + 1..];
      assert args[..i + 1] == args[..i] + [flag];
      RunArgsConcat(args[..i + 1], args[i + 1..], init);
      RunArgsConcat(args[..i], [flag], init);
      RunArgsKeeps(args[..i], init);
      var mid := RunArgs(args[..i + 1], init).state;
      assert k in mid.config && mid.config[k] == Flag(true);
      RunArgsKeeps(args[i + 1..], mid);
    }
  }
}
